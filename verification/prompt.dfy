/** `formatSelectionText`: the fixed prompt wrapped around a selection, shared
    by the current worker and the legacy background script (which differ only
    in where the address and title come from). */
module Prompt {
  import opened Js

  const Lead := "hey i'm reading this blog at "
  const WithTitle := " with title "
  const Instruction := ". read the blog and explain this snippet from it:"
  /** The snippet sits alone between two `"""` lines. */
  const Fence := "\n\"\"\"\n"

  function Quoted(s: string): string {
    "'" + s + "'"
  }

  /** Everything before the snippet, its opening fence included. */
  function Header(url: string, title: string): string {
    Lead + url + WithTitle + Quoted(title) + Instruction + Fence
  }

  /** The prompt: a header naming the address and the quoted title, then the
      text verbatim, then the closing fence. */
  function FormatSelectionText(text: string, url: string, title: string): (r: string)
    ensures |r| == |Header(url, title)| + |text| + |Fence|
    ensures r[..|Header(url, title)|] == Header(url, title)
    ensures r[|Header(url, title)| .. |r| - |Fence|] == text
    ensures r[|r| - |Fence|..] == Fence
    ensures OccursAt(r, url, |Lead|)
    ensures OccursAt(r, Quoted(title), |Lead| + |url| + |WithTitle|)
    ensures OccursAt(r, Fence + text + Fence, |Header(url, title)| - |Fence|)
  {
    Layout(Lead, url, WithTitle, title, Instruction, Fence, text);
    Header(url, title) + text + Fence
  }

  /** Where each part of `lead + url + withTitle + Quoted(title) + instruction +
      fence + text + fence` sits, stated for any parts at all. */
  lemma Layout(lead: string, url: string, withTitle: string, title: string,
               instruction: string, fence: string, text: string)
    ensures var h := lead + url + withTitle + Quoted(title) + instruction + fence;
      var r := h + text + fence;
      && r[..|h|] == h
      && r[|h| .. |r| - |fence|] == text
      && r[|r| - |fence|..] == fence
      && OccursAt(r, url, |lead|)
      && OccursAt(r, Quoted(title), |lead| + |url| + |withTitle|)
      && OccursAt(r, fence + text + fence, |h| - |fence|)
  {
    var h := lead + url + withTitle + Quoted(title) + instruction + fence;
    var r := h + text + fence;
    assert r[..|h|] == h;
    assert r[|h| .. |r| - |fence|] == text;
    SliceMiddle(lead, url, withTitle + Quoted(title) + instruction + fence + text + fence);
    SliceMiddle(lead + url + withTitle, Quoted(title), instruction + fence + text + fence);
    SliceMiddle(lead + url + withTitle + Quoted(title) + instruction, fence + text + fence, []);
  }

  /** `m` sits in `a + m + b` right after `a`. */
  lemma SliceMiddle(a: string, m: string, b: string)
    ensures OccursAt(a + m + b, m, |a|)
  {
    assert (a + m + b)[|a|..|a| + |m|] == m;
  }

  /** Reads the snippet back out of a prompt built for the given address and
      title. */
  function SnippetOf(prompt: string, url: string, title: string): string
    requires |prompt| >= |Header(url, title)| + |Fence|
  {
    prompt[|Header(url, title)| .. |prompt| - |Fence|]
  }

  /** The snippet survives formatting unchanged, so two different selections
      from the same page never produce the same prompt. */
  lemma SnippetRoundTrip(text: string, other: string, url: string, title: string)
    ensures SnippetOf(FormatSelectionText(text, url, title), url, title) == text
    ensures FormatSelectionText(text, url, title) == FormatSelectionText(other, url, title) ==> text == other
  {
    var p := FormatSelectionText(text, url, title);
    if p == FormatSelectionText(other, url, title) {
      assert SnippetOf(p, url, title) == other;
    }
  }

  /** Whatever the inputs, the prompt contains the address, the title and the
      selected text. */
  lemma {:induction false} PromptIncludes(text: string, url: string, title: string)
    ensures var p := FormatSelectionText(text, url, title);
      Includes(p, url) && Includes(p, title) && Includes(p, text)
  {
    var p := FormatSelectionText(text, url, title);
    var q := |Lead| + |url| + |WithTitle|;
    assert OccursAt(p, title, q + 1) by {
      assert p[q + 1 .. q + 1 + |title|] == p[q .. q + |Quoted(title)|][1 .. 1 + |title|];
    }
    assert OccursAt(p, text, |Header(url, title)|) by {
      var h := |Header(url, title)| - |Fence|;
      assert p[h + |Fence| .. h + |Fence| + |text|] == p[h .. h + |Fence| + |text| + |Fence|][|Fence| .. |Fence| + |text|];
    }
  }

  /** A part of a part is a part. */
  lemma IncludesTransitive(s: string, mid: string, part: string)
    requires Includes(s, mid) && Includes(mid, part)
    ensures Includes(s, part)
  {
    var i :| 0 <= i <= |s| - |mid| && OccursAt(s, mid, i);
    var j :| 0 <= j <= |mid| - |part| && OccursAt(mid, part, j);
    forall k | 0 <= k < |part|
      ensures s[i + j + k] == part[k]
    {
      assert s[i + j + k] == s[i .. i + |mid|][j + k];
      assert mid[j + k] == mid[j .. j + |part|][k];
    }
    assert OccursAt(s, part, i + j);
  }

  /** The worked example: a selection on https://example.com/bio titled
      "Biology 101" yields a prompt containing the host and path, the title and
      the selected sentence. */
  lemma WorkedExample()
    ensures var p := FormatSelectionText("the mitochondria is the powerhouse of the cell",
                                         "https://example.com/bio", "Biology 101");
      && Includes(p, "example.com/bio")
      && Includes(p, "Biology 101")
      && Includes(p, "the mitochondria is the powerhouse of the cell")
  {
    var url := "https://example.com/bio";
    var p := FormatSelectionText("the mitochondria is the powerhouse of the cell", url, "Biology 101");
    PromptIncludes("the mitochondria is the powerhouse of the cell", url, "Biology 101");
    assert OccursAt(url, "example.com/bio", 8);
    IncludesTransitive(p, url, "example.com/bio");
  }
}
