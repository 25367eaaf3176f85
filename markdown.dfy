/**
 * The `code` renderer of
 * src/ReactAiStudio/components/ChatComponent/MarkdownRenderer/index.tsx:
 * a code element becomes a highlighted block when it is not inline and its
 * class names a language through `language-(\w+)`, and inline code otherwise.
 * The Markdown parser that produces the code elements is not modelled.
 */
module Markdown {
  import opened Wrappers
  import opened Strings

  /** The literal part of the pattern `/language-(\w+)/`. */
  const LanguagePrefix: string := "language-"

  /** The index just past the run of `\w` characters that starts at `i`. */
  function WordsEnd(s: string, i: nat): (j: nat)
    requires i <= |s|
    ensures i <= j <= |s|
    ensures forall k :: i <= k < j ==> IsWordChar(s[k])
    ensures j == |s| || !IsWordChar(s[j])
    decreases |s| - i
  {
    if i < |s| && IsWordChar(s[i]) then WordsEnd(s, i + 1) else i
  }

  /** The pattern matches at index `i`: `language-` followed by at least one `\w`. */
  predicate LanguageAt(cls: string, i: int)
  {
    At(cls, i, LanguagePrefix) && i + |LanguagePrefix| < |cls| && IsWordChar(cls[i + |LanguagePrefix|])
  }

  /** The first index at or after `i` where the pattern matches, as `exec` tries them left to right. */
  function LanguageFrom(cls: string, i: nat): (r: Option<nat>)
    ensures r.Some? ==> i <= r.value && LanguageAt(cls, r.value)
    ensures r.Some? ==> forall k :: i <= k < r.value ==> !LanguageAt(cls, k)
    ensures r.None? ==> forall k :: i <= k ==> !LanguageAt(cls, k)
    decreases |cls| - i
  {
    if i + |LanguagePrefix| >= |cls| then None
    else if LanguageAt(cls, i) then Some(i)
    else LanguageFrom(cls, i + 1)
  }

  /**
   * `/language-(\w+)/.exec(cls)`'s group 1: the greedy `\w+` after the
   * leftmost `language-` that is followed by a word character.
   */
  function FindLanguage(cls: string): (r: Option<string>)
    ensures r.Some? ==> |r.value| > 0 && forall k :: 0 <= k < |r.value| ==> IsWordChar(r.value[k])
  {
    match LanguageFrom(cls, 0)
    case None => None
    case Some(i) =>
      var start := i + |LanguagePrefix|;
      Some(cls[start..WordsEnd(cls, start)])
  }

  /** At the first match, `language-` and the word run after it occur in the class. */
  lemma MatchHoldsLanguage(cls: string, i: nat)
    requires LanguageFrom(cls, 0) == Some(i)
    ensures var start := i + |LanguagePrefix|;
      At(cls, i, LanguagePrefix + cls[start..WordsEnd(cls, start)])
  {
    var start := i + |LanguagePrefix|;
    var e := WordsEnd(cls, start);
    assert cls[i..e] == cls[i..start] + cls[start..e];
  }

  /**
   * The language is found exactly when the class has a match, and it is the
   * whole word run after the first match: `language-` and the language
   * occur at that index, and no word character follows.
   */
  lemma FindLanguageSpec(cls: string)
    ensures FindLanguage(cls).Some? <==> exists i :: 0 <= i <= |cls| && LanguageAt(cls, i)
    ensures FindLanguage(cls).Some? ==>
      var lang := FindLanguage(cls).value;
      exists i ::
        && 0 <= i <= |cls|
        && At(cls, i, LanguagePrefix + lang)
        && (i + |LanguagePrefix| + |lang| == |cls| || !IsWordChar(cls[i + |LanguagePrefix| + |lang|]))
        && forall k :: 0 <= k < i ==> !LanguageAt(cls, k)
  {
    match LanguageFrom(cls, 0)
    case None =>
    case Some(i) =>
      MatchHoldsLanguage(cls, i);
  }

  /** The class `language-tsx` names the language `tsx`. */
  lemma FindLanguageExample()
    ensures FindLanguage("language-tsx") == Some("tsx")
    ensures FindLanguage("language-") == None
  {
    var cls := "language-tsx";
    assert cls[0..9] == LanguagePrefix;
    assert LanguageAt(cls, 0);
    assert LanguageFrom(cls, 0) == Some(0);
    assert WordsEnd(cls, 9) == 12 by {
      assert WordsEnd(cls, 12) == 12;
      assert WordsEnd(cls, 11) == 12;
      assert WordsEnd(cls, 10) == 12;
    }
    assert cls[9..12] == "tsx";
  }

  /** `value.replace(/\n$/, '')`: without the `m` flag `$` is the end of the text, so one final line feed goes. */
  function StripTrailingNewline(s: string): (r: string)
    ensures EndsWith(s, "\n") ==> r + "\n" == s
    ensures !EndsWith(s, "\n") ==> r == s
  {
    if |s| > 0 && s[|s| - 1] == '\n' then s[..|s| - 1] else s
  }

  /** Adding one line feed and stripping it gives the text back, whatever the text ends with. */
  lemma StripAfterNewline(t: string)
    ensures StripTrailingNewline(t + "\n") == t
  {
    assert (t + "\n")[..|t|] == t;
  }

  /** Only one line feed goes: a text ending in two keeps the first. */
  lemma StripRemovesOneNewline(t: string)
    ensures EndsWith(StripTrailingNewline(t + "\n\n"), "\n")
  {
    assert (t + "\n\n")[..|t| + 1] == t + "\n";
  }

  /** What a `code` element renders as. */
  datatype Rendered =
    | CodeBlock(language: string, value: string)
    | InlineCode(children: string)

  /**
   * The `code` callback: `className || ''` is searched for a language; a
   * block element with a language becomes a `CodeBlock` with the text less
   * one final line feed, anything else keeps its children as inline code.
   */
  function RenderCode(inline: bool, className: Option<string>, children: string): (r: Rendered)
    ensures r.CodeBlock? <==> !inline && FindLanguage(className.GetOr("")).Some?
    ensures r.CodeBlock? ==>
      r.language == FindLanguage(className.GetOr("")).value && r.value == StripTrailingNewline(children)
    ensures r.InlineCode? ==> r.children == children
  {
    var found := FindLanguage(className.GetOr(""));
    if !inline && found.Some? then CodeBlock(found.value, StripTrailingNewline(children))
    else InlineCode(children)
  }

  /** A code element without a class, or with one that names no language, stays inline code. */
  lemma NoLanguageIsInline(inline: bool, className: Option<string>, children: string)
    requires className.None? || !exists i :: 0 <= i <= |className.value| && LanguageAt(className.value, i)
    ensures RenderCode(inline, className, children) == InlineCode(children)
  {
    FindLanguageSpec(className.GetOr(""));
  }
}
