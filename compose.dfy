/** The system instruction sent with each request: the fixed instruction text,
    a banner, and the recent-prompt window. */
module Compose {
  import opened Text

  const Banner: string := "\n\n--------------------\n**Previous Generated Prompts:**\n"

  /** `format!("{}\n\n--------------------\n**Previous Generated Prompts:**\n{}", …)`:
      the template comes first, the window last, the banner between them. */
  function ComposeInstruction(template: string, window: string): (r: string)
    ensures |r| == |template| + |Banner| + |window|
    ensures r[..|template|] == template
    ensures r[|template|..|template| + |Banner|] == Banner
    ensures r[|template| + |Banner|..] == window
  {
    template + Banner + window
  }

  /** The instruction ends with the window, so it ends with every suffix of it. */
  lemma ComposeKeepsWindowEnd(template: string, window: string, suffix: string)
    requires EndsWith(window, suffix)
    ensures EndsWith(ComposeInstruction(template, window), suffix)
  {
    var r := ComposeInstruction(template, window);
    var n := |suffix|;
    assert r[|r| - n..] == r[|template| + |Banner|..][|window| - n..];
  }

  /** With the template fixed, the instruction determines the window. */
  lemma ComposeInjective(template: string, w1: string, w2: string)
    requires ComposeInstruction(template, w1) == ComposeInstruction(template, w2)
    ensures w1 == w2
  {
  }
}
