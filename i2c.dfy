/**
 * The i2c interface: gives an application read-write access to one I2C
 * bus controller device node (`/dev/i2c-N`) declared by a gadget or core
 * snap's slot. Modelled as its test suite pins it down: the slot rule, the
 * name, auto-connection, and the udev and AppArmor snippets a connected
 * plug contributes.
 */
module I2c {
  import opened Wrappers
  import opened Strings
  import opened Interfaces
  import Udev
  import AppArmor

  /** The interface name. */
  function Name(): (n: string)
    ensures n == "i2c"
  {
    "i2c"
  }

  /** Any i2c plug may be connected to any i2c slot without asking. */
  function AutoConnect(plug: Option<Plug>, slot: Option<Slot>): (ok: bool)
    ensures ok
  {
    true
  }

  const MissingPathError := Name() + " slot must have a path attribute"
  const BadPathError := Name() + " path attribute must be a valid device node"

  /** Every device node starts with this; one or more decimal digits follow. */
  const DevicePrefix := "/dev/i2c-"

  /** The sysfs directory tree that holds the controller's attributes, up to its name. */
  const SysfsPrefix := "/sys/devices/platform/{*,**.i2c}/"

  predicate IsDigit(ch: char)
  {
    '0' <= ch <= '9'
  }

  /** The accepted device paths: `/dev/i2c-` followed by one or more decimal digits. */
  predicate IsDevicePath(p: string)
  {
    |p| > |DevicePrefix| && p[..|DevicePrefix|] == DevicePrefix &&
    forall i :: |DevicePrefix| <= i < |p| ==> IsDigit(p[i])
  }

  /** Scans `s` for a non-digit. */
  function AllDigits(s: string): (b: bool)
    ensures b <==> forall i :: 0 <= i < |s| ==> IsDigit(s[i])
  {
    if s == [] then true
    else IsDigit(s[0]) && AllDigits(s[1..])
  }

  /** The path matcher: the fixed prefix, then a non-empty run of digits. */
  function MatchesDevicePath(p: string): (b: bool)
    ensures b <==> IsDevicePath(p)
  {
    |p| > |DevicePrefix| && p[..|DevicePrefix|] == DevicePrefix && AllDigits(p[|DevicePrefix|..])
  }

  /**
   * `SanitizeSlot`: a slot needs a non-empty `path` attribute, and that
   * path must be an i2c device node. The missing-path check comes first.
   */
  function SanitizeSlot(slot: Slot): (r: Outcome<string>)
    ensures r == Pass <==> "path" in slot.attrs && IsDevicePath(slot.attrs["path"])
    ensures r == Fail(MissingPathError) <==> "path" !in slot.attrs || slot.attrs["path"] == ""
    ensures r == Pass || r == Fail(MissingPathError) || r == Fail(BadPathError)
  {
    if "path" !in slot.attrs || slot.attrs["path"] == "" then Fail(MissingPathError)
    else if !MatchesDevicePath(slot.attrs["path"]) then Fail(BadPathError)
    else Pass
  }

  /** Accepted paths are exactly the prefix followed by a non-empty digit string. */
  lemma DevicePathShape(p: string)
    ensures IsDevicePath(p) <==>
              exists digits :: p == DevicePrefix + digits && digits != [] && AllDigits(digits)
  {
    if IsDevicePath(p) {
      var digits := p[|DevicePrefix|..];
      assert p == DevicePrefix + digits;
    }
    if exists digits :: p == DevicePrefix + digits && digits != [] && AllDigits(digits) {
      var digits :| p == DevicePrefix + digits && digits != [] && AllDigits(digits);
      assert p[..|DevicePrefix|] == DevicePrefix;
      forall i | |DevicePrefix| <= i < |p| ensures IsDigit(p[i]) {
        assert p[i] == digits[i - |DevicePrefix|];
      }
    }
  }

  /** The kernel name of the device: the last segment of its path, `i2c-<digits>`. */
  function DeviceName(path: string): string
  {
    LastSegment(path)
  }

  lemma DeviceNameOfPath(path: string)
    requires IsDevicePath(path)
    ensures DeviceName(path) == "i2c-" + path[|DevicePrefix|..]
    ensures DeviceName(path) == path[5..]
  {
    var name := path[5..];
    assert path[..5] == "/dev/" by {
      assert path[..5] == path[..|DevicePrefix|][..5];
    }
    assert path == "/dev/" + name;
    assert name[..4] == "i2c-" by {
      assert name[..4] == path[..|DevicePrefix|][5..];
    }
    forall i | 0 <= i < |name| ensures name[i] != '/' {
      if i >= 4 {
        assert |DevicePrefix| <= i + 5 < |path|;
        assert name[i] == path[i + 5];
      } else {
        assert name[i] == name[..4][i];
      }
    }
    LastSegmentAfterSlash("/dev/", name);
    assert name == "i2c-" + path[|DevicePrefix|..];
  }

  /** The udev rule tagging the device for one application of the plug's snap. */
  function UDevSnippet(path: string, snap: string, app: string): string
  {
    "KERNEL==\"" + DeviceName(path) + "\", TAG+=\"" + UdevTag(snap, app) + "\""
  }

  /** The rule names the device and the application's `snap_<snap>_<app>` tag. */
  lemma UDevSnippetContents(path: string, snap: string, app: string)
    requires IsDevicePath(path)
    requires '.' !in snap && '.' !in app
    ensures UDevSnippet(path, snap, app) ==
              "KERNEL==\"i2c-" + path[|DevicePrefix|..] + "\", TAG+=\"snap_" + snap + "_" + app + "\""
  {
    DeviceNameOfPath(path);
    UdevTagOfNames(snap, app);
  }

  /** The udev rules a connected plug adds: one per application bound to the plug. */
  function UDevSnippets(plug: Plug, slot: Slot): (rules: seq<string>)
    requires "path" in slot.attrs
    ensures |rules| == |plug.apps|
    ensures forall i :: 0 <= i < |plug.apps| ==>
              rules[i] == UDevSnippet(slot.attrs["path"], plug.snap, plug.apps[i])
  {
    seq(|plug.apps|, i requires 0 <= i < |plug.apps| => UDevSnippet(slot.attrs["path"], plug.snap, plug.apps[i]))
  }

  /** The AppArmor rules for a connected plug: read-write on the device node and its sysfs node. */
  function AppArmorSnippet(path: string): string
  {
    path + " rw,\n" + SysfsPrefix + DeviceName(path) + "/** rw,\n"
  }

  lemma AppArmorSnippetGrants(path: string)
    requires IsDevicePath(path)
    ensures Contains(AppArmorSnippet(path), path + " rw,")
    ensures Contains(AppArmorSnippet(path), SysfsPrefix + DeviceName(path) + "/** rw,")
    ensures Contains(AppArmorSnippet(path), SysfsPrefix + "i2c-" + path[|DevicePrefix|..] + "/** rw,")
  {
    DeviceNameOfPath(path);
    var devLine := path + " rw,";
    var sysLine := SysfsPrefix + DeviceName(path) + "/** rw,";
    assert AppArmorSnippet(path) == "" + devLine + ("\n" + sysLine + "\n");
    ContainsSelf(devLine);
    ContainsInfix("", devLine, "\n" + sysLine + "\n", devLine);
    assert AppArmorSnippet(path) == devLine + "\n" + sysLine + "\n";
    ContainsSelf(sysLine);
    ContainsInfix(devLine + "\n", sysLine, "\n", sysLine);
    assert sysLine == SysfsPrefix + "i2c-" + path[|DevicePrefix|..] + "/** rw,";
  }

  /** `AddConnectedPlug` on a udev specification: one rule per application bound to the plug. */
  method UDevConnectedPlug(spec: Udev.Specification, plug: Plug, slot: Slot)
    requires SanitizeSlot(slot) == Pass
    modifies spec
    ensures spec.snippets == old(spec.snippets) + UDevSnippets(plug, slot)
  {
    var rules := UDevSnippets(plug, slot);
    for i := 0 to |plug.apps|
      invariant spec.snippets == old(spec.snippets) + rules[..i]
    {
      spec.AddSnippet(UDevSnippet(slot.attrs["path"], plug.snap, plug.apps[i]));
      assert rules[..i + 1] == rules[..i] + [rules[i]];
    }
    assert rules[..|plug.apps|] == rules;
  }

  /** The applications of a plug are distinct (they come from a map in the snap metadata). */
  predicate DistinctApps(apps: seq<string>)
  {
    forall i, j :: 0 <= i < j < |apps| ==> apps[i] != apps[j]
  }

  /** With distinct applications, each one brings a tag not seen before it. */
  lemma NewTagEachApp(snap: string, apps: seq<string>, i: nat)
    requires DistinctApps(apps) && i < |apps|
    ensures SecurityTag(snap, apps[i]) !in TagsOf(snap, apps[..i])
  {
  }

  /**
   * `AddConnectedPlug` on an AppArmor specification: the device rules are
   * appended once under the security tag of every application bound to the
   * plug, and no other tag changes.
   */
  method AppArmorConnectedPlug(spec: AppArmor.Specification, plug: Plug, slot: Slot)
    requires SanitizeSlot(slot) == Pass
    requires DistinctApps(plug.apps)
    modifies spec
    ensures spec.snippets ==
              AppArmor.AppendUnder(old(spec.snippets), TagsOf(plug.snap, plug.apps), AppArmorSnippet(slot.attrs["path"]))
  {
    var snippet := AppArmorSnippet(slot.attrs["path"]);
    ghost var before := spec.snippets;
    for i := 0 to |plug.apps|
      invariant spec.snippets == AppArmor.AppendUnder(before, TagsOf(plug.snap, plug.apps[..i]), snippet)
    {
      var tag := SecurityTag(plug.snap, plug.apps[i]);
      NewTagEachApp(plug.snap, plug.apps, i);
      AppArmor.AppendUnderStep(before, TagsOf(plug.snap, plug.apps[..i]), tag, snippet);
      spec.AddSnippet(tag, snippet);
      TagsOfSnoc(plug.snap, plug.apps, i);
    }
    assert plug.apps[..|plug.apps|] == plug.apps;
  }

  lemma TagsOfSnoc(snap: string, apps: seq<string>, i: nat)
    requires i < |apps|
    ensures TagsOf(snap, apps[..i + 1]) == TagsOf(snap, apps[..i]) + {SecurityTag(snap, apps[i])}
  {
    assert apps[..i + 1] == apps[..i] + [apps[i]];
  }

  // ---------------------------------------------------------------------
  // The test suite's fixtures and scenarios

  function GadgetSlot(name: string, attrs: map<string, string>): Slot
  {
    Slot("some-device", name, "i2c", attrs, [])
  }

  /** The gadget slot `test-udev-1`, on `/dev/i2c-1`. */
  function TestUDev1(): Slot
  {
    GadgetSlot("test-udev-1", map["path" := "/dev/i2c-1"])
  }

  lemma TestUDev1Accepted()
    ensures SanitizeSlot(TestUDev1()) == Pass
    ensures TestUDev1().attrs["path"] == DevicePrefix + "1"
  {
  }

  /** The consuming snap's plug, bound to its one application. */
  function ClientPlug(): Plug
  {
    Plug("client-snap", "plug-for-port-1", "i2c", map[], ["app-accessing-1-port"])
  }

  /** The sanitization verdicts the test suite expects of each fixture slot. */
  lemma SanitizeFixtures()
    ensures SanitizeSlot(Slot("ubuntu-core", "test-port-1", "i2c", map["path" := "/dev/i2c-0"], [])) == Pass
    ensures SanitizeSlot(GadgetSlot("test-udev-1", map["path" := "/dev/i2c-1"])) == Pass
    ensures SanitizeSlot(GadgetSlot("test-udev-2", map["path" := "/dev/i2c-11"])) == Pass
    ensures SanitizeSlot(GadgetSlot("test-udev-3", map["path" := "/dev/i2c-0"])) == Pass
    ensures SanitizeSlot(GadgetSlot("test-udev-bad-value-1", map["path" := "/dev/i2c"])) == Fail(BadPathError)
    ensures SanitizeSlot(GadgetSlot("test-udev-bad-value-2", map["path" := "/dev/i2c-a"])) == Fail(BadPathError)
    ensures SanitizeSlot(GadgetSlot("test-udev-bad-value-3", map["path" := "/dev/i2c-2a"])) == Fail(BadPathError)
    ensures SanitizeSlot(GadgetSlot("test-udev-bad-value-4", map["path" := "/dev/foo-0"])) == Fail(BadPathError)
    ensures SanitizeSlot(GadgetSlot("test-udev-bad-value-5", map["path" := "/dev/i2c-foo"])) == Fail(BadPathError)
    ensures SanitizeSlot(GadgetSlot("test-udev-bad-value-6", map["path" := ""])) == Fail(MissingPathError)
    ensures SanitizeSlot(GadgetSlot("test-udev-bad-value-7", map[])) == Fail(MissingPathError)
  {
    assert "/dev/i2c-2a"[10] == 'a';
    assert "/dev/i2c-foo"[9] == 'f';
    assert "/dev/i2c-a"[9] == 'a';
    assert "/dev/foo-0"[..9] != DevicePrefix by { assert "/dev/foo-0"[5] != DevicePrefix[5]; }
  }

  lemma ClientNamesDotFree()
    ensures '.' !in "client-snap" && '.' !in "app-accessing-1-port"
  {
    var snap, app := "client-snap", "app-accessing-1-port";
    assert forall i :: 0 <= i < |snap| ==> snap[i] != '.';
    assert forall i :: 0 <= i < |app| ==> app[i] != '.';
  }

  /** The kernel name of `/dev/i2c-1`. */
  lemma ClientDeviceName()
    ensures DeviceName(TestUDev1().attrs["path"]) == "i2c-1"
  {
    var path := TestUDev1().attrs["path"];
    TestUDev1Accepted();
    DeviceNameOfPath(path);
    assert path[|DevicePrefix|..] == "1";
    assert "i2c-" + "1" == "i2c-1";
  }

  /** The client application's udev tag, written out. */
  lemma ClientUdevTag()
    ensures UdevTag("client-snap", "app-accessing-1-port") == "snap_client-snap_app-accessing-1-port"
  {
    ClientNamesDotFree();
    UdevTagOfNames("client-snap", "app-accessing-1-port");
    ClientUdevTagSpelledOut();
  }

  lemma ClientUdevTagSpelledOut()
    ensures "snap_" + "client-snap" + "_" + "app-accessing-1-port" == "snap_client-snap_app-accessing-1-port"
  {
  }

  /** The client application's security tag, written out. */
  lemma ClientTagSpelledOut()
    ensures SecurityTag("client-snap", "app-accessing-1-port") == "snap.client-snap.app-accessing-1-port"
  {
  }

  lemma ClientTags()
    ensures TagsOf(ClientPlug().snap, ClientPlug().apps) == {SecurityTag("client-snap", "app-accessing-1-port")}
  {
  }

  /** The udev scenario: a connected plug adds exactly one rule, for the device and the app's tag. */
  method UDevSpecScenario() returns (rules: seq<string>)
    ensures |rules| == 1
    ensures Contains(rules[0], "KERNEL==\"" + "i2c-1" + "\", TAG+=\"" + "snap_client-snap_app-accessing-1-port" + "\"")
  {
    var slot := TestUDev1();
    TestUDev1Accepted();
    var spec := new Udev.Specification();
    UDevConnectedPlug(spec, ClientPlug(), slot);
    rules := spec.snippets;
    assert rules[0] == UDevSnippet(slot.attrs["path"], "client-snap", "app-accessing-1-port");
    ClientDeviceName();
    ClientUdevTag();
    ContainsSelf(rules[0]);
  }

  /** Connecting the client plug to an empty AppArmor specification records one snippet under one tag. */
  lemma ClientAppArmorState()
    ensures AppArmor.AppendUnder(map[], TagsOf(ClientPlug().snap, ClientPlug().apps), AppArmorSnippet(TestUDev1().attrs["path"]))
            == map["snap.client-snap.app-accessing-1-port" := [AppArmorSnippet(TestUDev1().attrs["path"])]]
  {
    ClientTags();
    ClientTagSpelledOut();
    AppArmor.AppendUnderSingle(SecurityTag("client-snap", "app-accessing-1-port"), AppArmorSnippet(TestUDev1().attrs["path"]));
  }

  /** The rules the client's AppArmor snippet grants, written out. */
  lemma ClientAppArmorGrants(text: string)
    requires text == AppArmorSnippet(TestUDev1().attrs["path"])
    ensures Contains(text, "/dev/i2c-1" + " rw,")
    ensures Contains(text, "/sys/devices/platform/{*,**.i2c}/" + "i2c-1" + "/** rw,")
  {
    TestUDev1Accepted();
    AppArmorSnippetGrants(TestUDev1().attrs["path"]);
    ClientDeviceName();
  }

  /** The AppArmor scenario: one tag, whose snippet grants rw on the device and its sysfs node. */
  method AppArmorSpecScenario() returns (tags: seq<string>, text: string)
    ensures tags == ["snap.client-snap.app-accessing-1-port"]
    ensures Contains(text, "/dev/i2c-1" + " rw,")
    ensures Contains(text, "/sys/devices/platform/{*,**.i2c}/" + "i2c-1" + "/** rw,")
  {
    TestUDev1Accepted();
    var spec := new AppArmor.Specification();
    AppArmorConnectedPlug(spec, ClientPlug(), TestUDev1());
    ClientAppArmorState();
    var tag := "snap.client-snap.app-accessing-1-port";
    ghost var snippet := AppArmorSnippet(TestUDev1().attrs["path"]);
    assert spec.snippets == map[tag := [snippet]];
    tags := spec.SecurityTags();
    AppArmor.SingleTagList(spec.snippets, tag, tags);
    text := spec.SnippetForTag(tag);
    assert text == snippet;
    ClientAppArmorGrants(text);
  }
}
