/**
 * Plugs and slots as the interface code sees them, and the security tags
 * under which backends group the enforcement snippets of an application.
 */
module Interfaces {
  import opened Strings

  /**
   * A consumer's request for a capability. `apps` lists the applications
   * bound to the plug, in the order the snap metadata is iterated.
   */
  datatype Plug = Plug(snap: string, name: string, iface: string, attrs: map<string, string>, apps: seq<string>)

  /** A producer's offer of a capability. */
  datatype Slot = Slot(snap: string, name: string, iface: string, attrs: map<string, string>, apps: seq<string>)

  /** The AppArmor security tag of an application: `snap.<snap>.<app>`. */
  function SecurityTag(snap: string, app: string): (tag: string)
    ensures |tag| == |snap| + |app| + 6
    ensures tag[..5] == "snap." && tag[|tag| - |app|..] == app
    ensures tag[5..5 + |snap|] == snap && tag[5 + |snap|] == '.'
  {
    "snap." + snap + "." + app
  }

  /** Within one snap, different applications have different tags. */
  lemma SecurityTagInjective(snap: string, a: string, b: string)
    requires SecurityTag(snap, a) == SecurityTag(snap, b)
    ensures a == b
  {
    var t := SecurityTag(snap, a);
    assert a == t[|t| - |a|..];
  }

  /** Tags of dot-free snap names never collide: the tag determines both the snap and the application. */
  lemma SecurityTagsDistinct(s1: string, a1: string, s2: string, a2: string)
    requires '.' !in s1 && '.' !in s2
    requires SecurityTag(s1, a1) == SecurityTag(s2, a2)
    ensures s1 == s2 && a1 == a2
  {
    var t := SecurityTag(s1, a1);
    assert s1 == t[5..5 + |s1|];
    SecurityTagInjective(s1, a1, a2);
  }

  /** The udev tag of an application: its security tag with every '.' turned into '_'. */
  function UdevTag(snap: string, app: string): (tag: string)
    ensures '.' !in tag
    ensures |tag| == |SecurityTag(snap, app)|
  {
    ReplaceAll(SecurityTag(snap, app), '.', '_')
  }

  /** For dot-free snap and application names the udev tag is `snap_<snap>_<app>`. */
  lemma UdevTagOfNames(snap: string, app: string)
    requires '.' !in snap && '.' !in app
    ensures UdevTag(snap, app) == "snap_" + snap + "_" + app
  {
    ReplaceAllConcat("snap." + snap + ".", app, '.', '_');
    ReplaceAllConcat("snap." + snap, ".", '.', '_');
    ReplaceAllConcat("snap.", snap, '.', '_');
    ReplaceAllAbsent(snap, '.', '_');
    ReplaceAllAbsent(app, '.', '_');
    assert ReplaceAll("snap.", '.', '_') == "snap_";
    assert ReplaceAll(".", '.', '_') == "_";
  }

  /** The security tags of the given applications of a snap. */
  function TagsOf(snap: string, apps: seq<string>): (tags: set<string>)
    ensures forall a :: a in apps ==> SecurityTag(snap, a) in tags
    ensures forall t :: t in tags ==> exists a :: a in apps && t == SecurityTag(snap, a)
  {
    set a | a in apps :: SecurityTag(snap, a)
  }
}
