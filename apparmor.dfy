/** The AppArmor backend's specification: snippets gathered per security tag in one pass. */
module AppArmor {
  import opened Strings

  /** The snippets recorded under `tag` in `m` (none when the tag is absent). */
  function Get(m: map<string, seq<string>>, tag: string): seq<string>
  {
    if tag in m then m[tag] else []
  }

  /** `m` with `snippet` appended under each of `tags`; no other tag changes. */
  function AppendUnder(m: map<string, seq<string>>, tags: set<string>, snippet: string): (r: map<string, seq<string>>)
    ensures r.Keys == m.Keys + tags
    ensures forall t :: t in tags ==> r[t] == Get(m, t) + [snippet]
    ensures forall t :: t in m && t !in tags ==> r[t] == m[t]
  {
    map t | t in m.Keys + tags :: Get(m, t) + (if t in tags then [snippet] else [])
  }

  /** Appending under one more tag, one step at a time. */
  lemma AppendUnderStep(m: map<string, seq<string>>, tags: set<string>, tag: string, snippet: string)
    requires tag !in tags
    ensures var r := AppendUnder(m, tags, snippet);
            r[tag := Get(r, tag) + [snippet]] == AppendUnder(m, tags + {tag}, snippet)
  {
  }

  /** Appending under a single tag of an empty map gives that tag alone. */
  lemma AppendUnderSingle(tag: string, snippet: string)
    ensures AppendUnder(map[], {tag}, snippet) == map[tag := [snippet]]
  {
    var r := AppendUnder(map[], {tag}, snippet);
    var e: map<string, seq<string>> := map[tag := [snippet]];
    assert Get(map[], tag) == [];
    assert r.Keys == e.Keys;
    assert r[tag] == e[tag];
  }

  /** The sorted key list of a map with a single key is that key alone. */
  lemma SingleTagList(m: map<string, seq<string>>, tag: string, tags: seq<string>)
    requires m.Keys == {tag}
    requires forall t :: t in tags <==> t in m
    requires |tags| == |m.Keys|
    ensures tags == [tag]
  {
    assert tags[0] in m;
  }

  class Specification {
    var snippets: map<string, seq<string>>

    /** A fresh specification holds no tags. */
    constructor ()
      ensures snippets == map[]
    {
      snippets := map[];
    }

    /** The snippets recorded under `tag` (none when the tag is absent). */
    function SnippetsOf(tag: string): seq<string>
      reads this
    {
      Get(snippets, tag)
    }

    /** Appends one snippet under `tag`. */
    method AddSnippet(tag: string, snippet: string)
      modifies this
      ensures snippets == old(snippets)[tag := old(SnippetsOf(tag)) + [snippet]]
    {
      snippets := snippets[tag := SnippetsOf(tag) + [snippet]];
    }

    /** `SecurityTags`: every tag that has snippets, each once, in sorted order. */
    method SecurityTags() returns (tags: seq<string>)
      ensures Sorted(tags)
      ensures forall t :: t in tags <==> t in snippets
      ensures |tags| == |snippets.Keys|
    {
      var rest := snippets.Keys;
      tags := [];
      while rest != {}
        invariant rest <= snippets.Keys
        invariant Sorted(tags)
        invariant forall t :: t in tags <==> t in snippets && t !in rest
        invariant |tags| + |rest| == |snippets.Keys|
        decreases rest
      {
        var t :| t in rest;
        tags := Insert(tags, t);
        rest := rest - {t};
      }
    }

    /** `SnippetForTag`: the snippets of `tag` joined by newlines; each of them appears in it. */
    function SnippetForTag(tag: string): (text: string)
      reads this
      ensures forall i :: 0 <= i < |SnippetsOf(tag)| ==> Contains(text, SnippetsOf(tag)[i])
      ensures |SnippetsOf(tag)| == 1 ==> text == SnippetsOf(tag)[0]
      ensures SnippetsOf(tag) == [] ==> text == ""
    {
      Join(SnippetsOf(tag), "\n")
    }
  }
}
