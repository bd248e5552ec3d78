/** The code-highlighting block of the step text renderer
    (`view/base/ui/widget/block/HighlightScriptBlock.kt`): the page header it contributes, and
    the test for whether a step's HTML needs it. */
module Highlight {
  import opened Common

  /** The tag whose presence switches highlighting on. */
  const CodeTag: string := "<code"

  /** `header`: the script tags loading highlight.js and starting it on page load, one per
      line, with the source's indentation removed. It does not depend on the content. */
  const Header: string :=
    "<script type=\"text/javascript\" src=\"file:///android_asset/scripts/highlight.pack.js\"></script>\n"
    + "<script>hljs.initHighlightingOnLoad();</script>"

  /** `isEnabled(content)`: the content contains the code tag (case-sensitive). */
  function IsEnabled(content: string): (b: bool)
    ensures b <==> Contains(content, CodeTag)
  {
    ContainsString(content, CodeTag)
  }

  /** Empty content never switches highlighting on. */
  lemma EmptyIsNotEnabled()
    ensures !IsEnabled("")
  {
    assert !OccursAt(CodeTag, "", 0);
  }

  /** Text added before or after enabled content keeps it enabled. */
  lemma EnabledWidens(s: string, before: string, after: string)
    requires IsEnabled(s)
    ensures IsEnabled(before + s + after)
  {
    ContainsWidens(s, CodeTag, before, after);
  }

  /** The match is case-sensitive: an upper-case tag alone does not enable highlighting. */
  lemma UpperCaseTagIsNotEnabled()
    ensures !IsEnabled("<CODE>")
  {
    forall i: nat
      ensures !OccursAt(CodeTag, "<CODE>", i)
    {
      if i + |CodeTag| <= |"<CODE>"| {
        assert "<CODE>"[i + 1] != CodeTag[1];
      }
    }
  }
}
