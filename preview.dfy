/**
 * The preview host of src/ReactAiStudio/components/Preview/index.tsx: it
 * keeps the last compiled code and the last runtime error, and builds the
 * iframe document by filling two empty script tags of an HTML template.
 * The template (`iframe.html`) is a parameter.
 */
module Preview {
  import opened Wrappers
  import opened Strings
  import opened CompilerWorker

  /**
   * The replacement text `String.prototype.replace` inserts for a string
   * pattern (GetSubstitution, section 22.1.3.19.1 of ECMA-262): `$$` gives
   * `$`, `$&` the matched text, `` $` `` the text before the match and `$'`
   * the text after it. A string pattern has no captures, so every other `$`
   * (`$1`, `$<`, a final `$`) stands for itself.
   */
  function Expand(repl: string, matched: string, before: string, after: string): string
    decreases |repl|
  {
    if |repl| == 0 then ""
    else if repl[0] == '$' && |repl| >= 2 && repl[1] == '$' then "$" + Expand(repl[2..], matched, before, after)
    else if repl[0] == '$' && |repl| >= 2 && repl[1] == '&' then matched + Expand(repl[2..], matched, before, after)
    else if repl[0] == '$' && |repl| >= 2 && repl[1] == '`' then before + Expand(repl[2..], matched, before, after)
    else if repl[0] == '$' && |repl| >= 2 && repl[1] == '\'' then after + Expand(repl[2..], matched, before, after)
    else [repl[0]] + Expand(repl[1..], matched, before, after)
  }

  /** Replacement text without `$` is inserted as it is. */
  lemma {:induction false} ExpandLiteral(repl: string, matched: string, before: string, after: string)
    requires '$' !in repl
    ensures Expand(repl, matched, before, after) == repl
    decreases |repl|
  {
    if |repl| > 0 {
      assert repl[0] != '$';
      ExpandLiteral(repl[1..], matched, before, after);
      assert repl == [repl[0]] + repl[1..];
    }
  }

  /** `s.replace(p, repl)` for a string pattern: only the first occurrence of `p` is replaced. */
  function ReplaceFirst(s: string, p: string, repl: string): string
  {
    match IndexOf(s, p)
    case None => s
    case Some(i) => s[..i] + Expand(repl, p, s[..i], s[i + |p|..]) + s[i + |p|..]
  }

  /**
   * The replacement meant by the source: the first occurrence of `p`
   * becomes `x`, character for character; without `p` the text stays.
   */
  function ReplaceVerbatim(s: string, p: string, x: string): (r: string)
  {
    match IndexOf(s, p)
    case None => s
    case Some(i) => s[..i] + x + s[i + |p|..]
  }

  /**
   * Without the pattern the text is unchanged; with it, the text before
   * its first occurrence and the text after that occurrence are kept.
   */
  lemma ReplaceFirstKeepsRest(s: string, p: string, repl: string)
    ensures !Contains(s, p) ==> ReplaceFirst(s, p, repl) == s
    ensures Contains(s, p) ==>
      var i := IndexOf(s, p).value;
      var r := ReplaceFirst(s, p, repl);
      && StartsWith(r, s[..i])
      && EndsWith(r, s[i + |p|..])
  {
    match IndexOf(s, p)
    case None =>
    case Some(i) =>
      assert At(s, i, p);
      var mid := Expand(repl, p, s[..i], s[i + |p|..]);
      var r := ReplaceFirst(s, p, repl);
      assert r == s[..i] + mid + s[i + |p|..];
      assert r[..i] == s[..i];
      assert r[|r| - |s[i + |p|..]|..] == s[i + |p|..];
  }

  /** For replacement text without `$`, `replace` is the verbatim replacement. */
  lemma ReplaceFirstLiteral(s: string, p: string, x: string)
    requires '$' !in x
    ensures ReplaceFirst(s, p, x) == ReplaceVerbatim(s, p, x)
  {
    if IndexOf(s, p).Some? {
      var i := IndexOf(s, p).value;
      ExpandLiteral(x, p, s[..i], s[i + |p|..]);
    }
  }

  /** A replacement of `$&` puts the matched text back, so the text is unchanged. */
  lemma DollarAmpersandKeepsText(s: string, p: string)
    ensures ReplaceFirst(s, p, "$&") == s
  {
    if IndexOf(s, p).Some? {
      var i := IndexOf(s, p).value;
      var before, after := s[..i], s[i + |p|..];
      assert "$&"[2..] == "";
      assert Expand("$&", p, before, after) == p + Expand("", p, before, after);
      assert s[i..i + |p|] == p;
      assert s == before + s[i..i + |p|] + after;
    }
  }

  /** A `$&` inside the replacement text expands to the matched text, with the text around it kept. */
  lemma {:induction false} ExpandDollarAmpersand(c1: string, c2: string, matched: string, before: string, after: string)
    requires '$' !in c1
    ensures Expand(c1 + "$&" + c2, matched, before, after) == c1 + matched + Expand(c2, matched, before, after)
    decreases |c1|
  {
    var repl := c1 + "$&" + c2;
    var e2 := Expand(c2, matched, before, after);
    if |c1| == 0 {
      assert repl == "$&" + c2;
      assert repl[0] == '$' && repl[1] == '&' && repl[2..] == c2;
      assert Expand(repl, matched, before, after) == matched + e2;
      assert c1 + matched + e2 == matched + e2;
    } else {
      assert repl[0] == c1[0] != '$';
      assert repl[1..] == c1[1..] + "$&" + c2;
      ExpandDollarAmpersand(c1[1..], c2, matched, before, after);
      assert Expand(repl, matched, before, after) == [c1[0]] + (c1[1..] + matched + e2);
      assert c1 == [c1[0]] + c1[1..];
      assert [c1[0]] + (c1[1..] + matched + e2) == c1 + matched + e2;
    }
  }

  /**
   * Replacement code holding one `$&` among `$`-free text: where the code
   * had `$&`, the result holds the pattern itself, not the two characters.
   */
  lemma CodeWithDollarAmpersand(s: string, p: string, c1: string, c2: string)
    requires '$' !in c1 && '$' !in c2
    requires IndexOf(s, p).Some?
    ensures var i := IndexOf(s, p).value;
      ReplaceFirst(s, p, c1 + "$&" + c2) == s[..i] + (c1 + p + c2) + s[i + |p|..]
    ensures ReplaceFirst(s, p, c1 + "$&" + c2) == ReplaceVerbatim(s, p, c1 + "$&" + c2) <==> p == "$&"
  {
    var i := IndexOf(s, p).value;
    var before, after := s[..i], s[i + |p|..];
    ExpandDollarAmpersand(c1, c2, p, before, after);
    ExpandLiteral(c2, p, before, after);
    var x, y := c1 + p + c2, c1 + "$&" + c2;
    if before + x + after == before + y + after {
      assert x == (before + x + after)[|before|..|before| + |x|];
      assert |x| == |y|;
      assert y == (before + y + after)[|before|..|before| + |y|];
      assert p == x[|c1|..|c1| + |p|] == y[|c1|..|c1| + 2];
    }
  }

  /** The empty import-map tag of the template. */
  const ImportMapSlot: string := "<script type=\"importmap\"></script>"
  /** The empty application tag of the template. */
  const AppSlot: string := "<script type=\"module\" id=\"appSrc\"></script>"

  /** The import-map tag holding `json`. */
  function ImportMapTag(json: string): string
  {
    "<script type=\"importmap\">" + json + "</script>"
  }

  /** The application tag holding `code`. */
  function AppTag(code: string): string
  {
    "<script type=\"module\" id=\"appSrc\">" + code + "</script>"
  }

  /**
   * `getIframeUrl`'s document: the first empty import-map tag filled with
   * the import map, then, in that result, the first empty application tag
   * filled with the compiled code, each through `String.prototype.replace`.
   */
  function IframeDocument(template: string, importMap: string, code: string): string
  {
    ReplaceFirst(ReplaceFirst(template, ImportMapSlot, ImportMapTag(importMap)), AppSlot, AppTag(code))
  }

  /** The tag texts around the inserted values hold no `$`. */
  lemma TagsAreLiteral(json: string, code: string)
    ensures '$' !in json ==> '$' !in ImportMapTag(json)
    ensures '$' !in code ==> '$' !in AppTag(code)
  {
    var a := "<script type=\"importmap\">";
    var b := "<script type=\"module\" id=\"appSrc\">";
    var c := "</script>";
    assert forall k :: 0 <= k < |a| ==> a[k] != '$';
    assert forall k :: 0 <= k < |b| ==> b[k] != '$';
    assert forall k :: 0 <= k < |c| ==> c[k] != '$';
    assert ImportMapTag(json) == a + json + c;
    assert AppTag(code) == b + code + c;
  }

  /**
   * With an import map and compiled code free of `$`, the document is the
   * template with the two tags filled in verbatim.
   */
  lemma IframeDocumentVerbatim(template: string, importMap: string, code: string)
    requires '$' !in importMap && '$' !in code
    ensures IframeDocument(template, importMap, code)
      == ReplaceVerbatim(ReplaceVerbatim(template, ImportMapSlot, ImportMapTag(importMap)), AppSlot, AppTag(code))
  {
    TagsAreLiteral(importMap, code);
    var first := ReplaceFirst(template, ImportMapSlot, ImportMapTag(importMap));
    ReplaceFirstLiteral(template, ImportMapSlot, ImportMapTag(importMap));
    ReplaceFirstLiteral(first, AppSlot, AppTag(code));
  }

  /** A verbatim replacement of a pattern that occurs leaves the new text in place. */
  lemma ReplaceVerbatimContains(s: string, p: string, x: string)
    requires Contains(s, p)
    ensures Contains(ReplaceVerbatim(s, p, x), x)
  {
    var k :| 0 <= k <= |s| && At(s, k, p);
    assert IndexOf(s, p).Some?;
    var i := IndexOf(s, p).value;
    ContainsInfix(s[..i], x, s[i + |p|..]);
  }

  /** The message the iframe posts to the window: its `type` and `message`. */
  datatype WindowMessage = WindowMessage(kind: string, message: string)

  /**
   * The component's state: the compiled code and the error shown, the HTML
   * blobs created for the iframe (blob `i` holds `documents[i]`), the URL
   * the iframe shows, and the import map and code the last document was
   * built from (`None` before the first effect run).
   */
  class PreviewHost {
    var compiledCode: string
    var error: string
    var documents: seq<string>
    var iframeUrl: string
    var builtFrom: Option<(string, string)>

    /** Mounting: no code, no error, and the iframe showing the template with the import map filled in. */
    constructor(template: string, importMap: string)
      ensures compiledCode == "" && error == ""
      ensures documents == [IframeDocument(template, importMap, "")]
      ensures iframeUrl == BlobUrl(0)
      ensures builtFrom.None?
    {
      compiledCode := "";
      error := "";
      documents := [IframeDocument(template, importMap, "")];
      iframeUrl := BlobUrl(0);
      builtFrom := None;
    }

    /** The worker listener: only a `COMPILED_CODE` reply replaces the code; nothing clears the error. */
    method OnWorkerMessage(m: WorkerMessage)
      modifies this
      ensures m.CompiledCode? ==> compiledCode == m.data
      ensures m.CompileError? ==> compiledCode == old(compiledCode)
      ensures error == old(error) && documents == old(documents)
      ensures iframeUrl == old(iframeUrl) && builtFrom == old(builtFrom)
    {
      if m.CompiledCode? {
        compiledCode := m.data;
      }
    }

    /** `handleMessage`: a window message of type `ERROR` sets the error; any other is ignored. */
    method OnWindowMessage(msg: WindowMessage)
      modifies this
      ensures msg.kind == "ERROR" ==> error == msg.message
      ensures msg.kind != "ERROR" ==> error == old(error)
      ensures compiledCode == old(compiledCode) && documents == old(documents)
      ensures iframeUrl == old(iframeUrl) && builtFrom == old(builtFrom)
    {
      if msg.kind == "ERROR" {
        error := msg.message;
      }
    }

    /**
     * The effect on `[files[IMPORT_MAP_FILE_NAME].value, compiledCode]`: it
     * runs on the first render and whenever either value differs from the
     * run before, and then builds a new document in a new blob for the iframe.
     */
    method Rendered(template: string, importMap: string)
      modifies this
      ensures var changed := old(builtFrom) != Some((importMap, old(compiledCode)));
        && (changed ==>
              && documents == old(documents) + [IframeDocument(template, importMap, compiledCode)]
              && iframeUrl == BlobUrl(|old(documents)|)
              && builtFrom == Some((importMap, compiledCode)))
        && (!changed ==>
              documents == old(documents) && iframeUrl == old(iframeUrl) && builtFrom == old(builtFrom))
      ensures compiledCode == old(compiledCode) && error == old(error)
    {
      if builtFrom != Some((importMap, compiledCode)) {
        iframeUrl := BlobUrl(|documents|);
        documents := documents + [IframeDocument(template, importMap, compiledCode)];
        builtFrom := Some((importMap, compiledCode));
      }
    }
  }
}
