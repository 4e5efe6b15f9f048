/** The udev backend's specification: the rule snippets gathered in one pass. */
module Udev {

  class Specification {
    var snippets: seq<string>

    /** A fresh specification holds no snippets. */
    constructor ()
      ensures snippets == []
    {
      snippets := [];
    }

    /** Appends one rule. */
    method AddSnippet(snippet: string)
      modifies this
      ensures snippets == old(snippets) + [snippet]
    {
      snippets := snippets + [snippet];
    }
  }
}
