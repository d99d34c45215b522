/**
 * The install-command side of ramsleuth_pkg/dependency_engine.py: reading /etc/os-release,
 * the distribution-ID tables of detect_distribution, the SYSTEM_PACKAGE_MAP lookup and the
 * command construct_install_command builds, the guard of auto_install_dependencies, and
 * get_missing_dependencies. Tool and package availability are oracles.
 */
module Dependencies {
  import opened Outcome
  import opened Text

  // ---------------------------------------------------------------- os-release

  /** The quote removal applied to an os-release value: one pair of matching quotes, ' or ". */
  function StripQuotes(value: string): (r: string)
    ensures |r| <= |value|
  {
    if (StartsWith(value, "\"") && EndsWith(value, "\"")) || (StartsWith(value, "'") && EndsWith(value, "'")) then
      // value[1:-1]; for a lone quote character Python gives ""
      if |value| >= 2 then value[1..|value| - 1] else ""
    else value
  }

  /** A value quoted with either quote character comes back as it was written. */
  lemma QuoteRoundTrip(x: string, q: char)
    requires q == '"' || q == '\''
    ensures StripQuotes([q] + x + [q]) == x
  {
    var v := [q] + x + [q];
    assert v[..1] == [q] && v[|v| - 1..] == [q];
    assert v[1..|v| - 1] == x;
  }

  /** A value that does not start or does not end with a quote is kept as it is. */
  lemma UnquotedKept(value: string)
    requires value == [] || (value[0] != '"' && value[0] != '\'') || (value[|value| - 1] != '"' && value[|value| - 1] != '\'')
    ensures StripQuotes(value) == value
  {
    if value != [] {
      assert StartsWith(value, "\"") ==> value[0] == '"';
      assert StartsWith(value, "'") ==> value[0] == '\'';
      assert EndsWith(value, "\"") ==> value[|value| - 1] == '"';
      assert EndsWith(value, "'") ==> value[|value| - 1] == '\'';
    }
  }

  /** A lone quote character reads as the empty value. */
  lemma LoneQuote()
    ensures StripQuotes("\"") == "" && StripQuotes("'") == ""
  {
  }

  /** One line of the file: KEY=value, stripped, split at the first '=', value unquoted. */
  function Entry(line: string): Option<(string, string)>
  {
    match SplitOnce(Strip(line), "=")
    case None => None
    case Some((key, value)) => Some((key, StripQuotes(value)))
  }

  /** Each line read as an entry, or None. */
  function Entries(lines: seq<string>): (r: seq<Option<(string, string)>>)
    ensures |r| == |lines| && forall i :: 0 <= i < |lines| ==> r[i] == Entry(lines[i])
  {
    seq(|lines|, i requires 0 <= i < |lines| => Entry(lines[i]))
  }

  /** The dictionary the entries build, in order, a later entry overriding an earlier one. */
  function Assemble(entries: seq<Option<(string, string)>>): map<string, string>
  {
    if entries == [] then map[]
    else
      var before := Assemble(entries[..|entries| - 1]);
      match entries[|entries| - 1]
      case None => before
      case Some((key, value)) => before[key := value]
  }

  /** os_release_data */
  function OsReleaseData(lines: seq<string>): map<string, string>
  {
    Assemble(Entries(lines))
  }

  /** The body of the loop over /etc/os-release for one line. */
  method ParseLine(raw: string) returns (entry: Option<(string, string)>)
    ensures entry == Entry(raw)
  {
    var line := Strip(raw);
    var parts := SplitOnce(line, "=");
    if parts.None? {
      return None;
    }
    var (key, value) := parts.value;
    if StartsWith(value, "\"") && EndsWith(value, "\"") {
      value := if |value| >= 2 then value[1..|value| - 1] else "";
    } else if StartsWith(value, "'") && EndsWith(value, "'") {
      value := if |value| >= 2 then value[1..|value| - 1] else "";
    }
    return Some((key, value));
  }

  /** The loop over the lines of /etc/os-release. */
  method ReadOsRelease(lines: seq<string>) returns (data: map<string, string>)
    ensures data == OsReleaseData(lines)
  {
    data := map[];
    for i := 0 to |lines|
      invariant data == Assemble(Entries(lines)[..i])
    {
      assert Entries(lines)[..i + 1][..i] == Entries(lines)[..i];
      var entry := ParseLine(lines[i]);
      if entry.Some? {
        data := data[entry.value.0 := entry.value.1];
      }
    }
    assert Entries(lines)[..|lines|] == Entries(lines);
  }

  /** A key is present exactly when some entry defines it. */
  lemma {:induction false} AssembleKeys(entries: seq<Option<(string, string)>>)
    ensures forall k :: k in Assemble(entries) <==> exists i :: 0 <= i < |entries| && entries[i].Some? && entries[i].value.0 == k
  {
    if entries != [] {
      var n := |entries| - 1;
      AssembleKeys(entries[..n]);
      assert forall i :: 0 <= i < n ==> entries[..n][i] == entries[i];
    }
  }

  /** A key's value is the one its last entry gives. */
  lemma {:induction false} AssembleLast(entries: seq<Option<(string, string)>>)
    ensures forall k :: k in Assemble(entries) ==> exists i :: (
      && 0 <= i < |entries| && entries[i] == Some((k, Assemble(entries)[k]))
      && forall j :: i < j < |entries| ==> entries[j].None? || entries[j].value.0 != k)
  {
    if entries != [] {
      var n := |entries| - 1;
      AssembleLast(entries[..n]);
      assert forall i :: 0 <= i < n ==> entries[..n][i] == entries[i];
    }
  }

  /** A key is present exactly when some line defines it, and its value is the one the last such line gives. */
  lemma OsReleaseDataSpec(lines: seq<string>)
    ensures forall k :: k in OsReleaseData(lines) <==> exists i :: 0 <= i < |lines| && Entry(lines[i]).Some? && Entry(lines[i]).value.0 == k
    ensures forall k :: k in OsReleaseData(lines) ==> exists i :: (
      && 0 <= i < |lines| && Entry(lines[i]) == Some((k, OsReleaseData(lines)[k]))
      && forall j :: i < j < |lines| ==> Entry(lines[j]).None? || Entry(lines[j]).value.0 != k)
  {
    AssembleKeys(Entries(lines));
    AssembleLast(Entries(lines));
  }

  // ---------------------------------------------------------------- distribution IDs

  /** A package manager: its name, install prefix and query command. */
  datatype Manager = Manager(name: string, installCmd: string, checkCmd: string)

  const Pacman := Manager("pacman", "pacman -S --noconfirm --needed", "pacman -Qi")
  const Apt := Manager("apt", "apt install -y", "dpkg -s")
  const Dnf := Manager("dnf", "dnf install -y", "rpm -q")
  const Zypper := Manager("zypper", "zypper install -y", "rpm -q")
  const Emerge := Manager("emerge", "emerge --ask n", "qlist -I")

  /** The mapping applied to the lower-cased os-release ID: the internal ID and its manager, or None for "unknown". */
  function ClassifyOsRelease(id: string): (r: Option<(string, Manager)>)
    ensures r.Some? ==> IsKnownId(r.value.0) && r.value.1 in {Pacman, Apt, Dnf, Zypper, Emerge}
  {
    if id in {"arch", "artix", "archlinux", "archarm"} then Some(("arch", Pacman))
    else if id == "debian" then Some(("debian", Apt))
    else if id in {"ubuntu", "linuxmint", "pop", "elementary", "zorin"} then Some(("ubuntu", Apt))
    else if id == "fedora" then Some(("fedora", Dnf))
    else if id in {"rhel", "centos", "rocky", "almalinux", "oracle"} then Some((id, Dnf))
    else if id in {"opensuse", "opensuse-leap", "opensuse-tumbleweed", "suse", "sles"} then Some(("opensuse", Zypper))
    else if id == "gentoo" then Some(("gentoo", Emerge))
    else None
  }

  /** The smaller mapping applied to the output of lsb_release -si. */
  function ClassifyLsb(id: string): (r: Option<(string, Manager)>)
    ensures r.Some? ==> IsKnownId(r.value.0) && r.value.1 in {Pacman, Apt}
  {
    if id in {"arch", "artix", "endeavouros", "manjaro", "garuda"} then Some(("arch", Pacman))
    else if id == "debian" then Some(("debian", Apt))
    else if id in {"ubuntu", "linuxmint"} then Some(("ubuntu", Apt))
    else None
  }

  /** The internal IDs either table can produce. */
  predicate IsKnownId(id: string)
  {
    id in {"arch", "debian", "ubuntu", "fedora", "rhel", "centos", "rocky", "almalinux", "oracle", "opensuse", "gentoo"}
  }

  /** The os-release table: its IDs, and the manager each family uses; the RHEL family keeps its own ID. */
  lemma ClassifyOsReleaseSpec(id: string)
    ensures ClassifyOsRelease(id).Some? ==> IsKnownId(ClassifyOsRelease(id).value.0) && ClassifyOsRelease(id).value.0 != "unknown"
    ensures ClassifyOsRelease(id).Some? ==> ClassifyOsRelease(id).value.1.installCmd != []
    ensures id in {"rhel", "centos", "rocky", "almalinux", "oracle"} ==> ClassifyOsRelease(id) == Some((id, Dnf))
    ensures ClassifyOsRelease(id).Some? && ClassifyOsRelease(id).value.0 == "arch" ==> ClassifyOsRelease(id).value.1 == Pacman
    ensures ClassifyOsRelease(id).Some? && ClassifyOsRelease(id).value.0 == "ubuntu" ==> ClassifyOsRelease(id).value.1 == Apt
    ensures ClassifyOsRelease(id).Some? && ClassifyOsRelease(id).value.0 == "opensuse" ==> ClassifyOsRelease(id).value.1 == Zypper
  {
  }

  /** Where both tables know an ID they agree on it. */
  lemma TablesAgree(id: string)
    ensures ClassifyLsb(id).Some? && ClassifyOsRelease(id).Some? ==> ClassifyLsb(id) == ClassifyOsRelease(id)
    ensures ClassifyLsb(id).Some? ==> IsKnownId(ClassifyLsb(id).value.0)
  {
  }

  /** distro_info */
  datatype DistroInfo = DistroInfo(id: string, name: string, version: string, packageManager: string, installCmd: string, checkCmd: string)

  const UnknownDistro := DistroInfo("unknown", "Unknown", "", "", "", "")

  function WithManager(info: DistroInfo, c: (string, Manager)): DistroInfo
  {
    info.(id := c.0, packageManager := c.1.name, installCmd := c.1.installCmd, checkCmd := c.1.checkCmd)
  }

  /** The result of the os-release step; osRelease is None when the file is missing or unreadable. */
  function FromOsRelease(osRelease: Option<seq<string>>): DistroInfo
  {
    match osRelease
    case None => UnknownDistro
    case Some(lines) =>
      var data := OsReleaseData(lines);
      var info := UnknownDistro.(name := if "NAME" in data then data["NAME"] else "Unknown",
                                 version := if "VERSION_ID" in data then data["VERSION_ID"] else "");
      match ClassifyOsRelease(Lower(if "ID" in data then data["ID"] else "unknown"))
      case None => info
      case Some(c) => WithManager(info, c)
  }

  /**
   * detect_distribution: the os-release result, then, while the ID is still "unknown" on
   * Linux, the lsb_release fallback; lsbOutput is its standard output when it exits with 0.
   */
  function Detection(osRelease: Option<seq<string>>, system: string, lsbOutput: Option<string>): DistroInfo
  {
    var info := FromOsRelease(osRelease);
    if info.id == "unknown" && Lower(system) == "linux" && lsbOutput.Some? then
      match ClassifyLsb(Lower(Strip(lsbOutput.value)))
      case None => info
      case Some(c) => WithManager(info, c)
    else info
  }

  method DetectDistribution(osRelease: Option<seq<string>>, system: string, lsbOutput: Option<string>) returns (info: DistroInfo)
    ensures info == Detection(osRelease, system, lsbOutput)
  {
    info := UnknownDistro;
    if osRelease.Some? {
      var data := ReadOsRelease(osRelease.value);
      var distroId := Lower(if "ID" in data then data["ID"] else "unknown");
      info := info.(name := if "NAME" in data then data["NAME"] else "Unknown");
      info := info.(version := if "VERSION_ID" in data then data["VERSION_ID"] else "");
      var c := ClassifyOsRelease(distroId);
      if c.Some? {
        info := WithManager(info, c.value);
      }
    }
    if info.id == "unknown" {
      var systemName := Lower(system);
      if systemName == "linux" && lsbOutput.Some? {
        var c := ClassifyLsb(Lower(Strip(lsbOutput.value)));
        if c.Some? {
          info := WithManager(info, c.value);
        }
      }
    }
  }

  /** The ID is "unknown" or one the tables produce, and a known ID always comes with an install command. */
  lemma DetectionSpec(osRelease: Option<seq<string>>, system: string, lsbOutput: Option<string>)
    ensures Detection(osRelease, system, lsbOutput).id == "unknown" || IsKnownId(Detection(osRelease, system, lsbOutput).id)
    ensures Detection(osRelease, system, lsbOutput).id == "unknown" <==> Detection(osRelease, system, lsbOutput).installCmd == []
    ensures osRelease.None? && Lower(system) != "linux" ==> Detection(osRelease, system, lsbOutput) == UnknownDistro
  {
    var info := FromOsRelease(osRelease);
    if osRelease.Some? {
      var data := OsReleaseData(osRelease.value);
      ClassifyOsReleaseSpec(Lower(if "ID" in data then data["ID"] else "unknown"));
    }
    if info.id == "unknown" && Lower(system) == "linux" && lsbOutput.Some? {
      TablesAgree(Lower(Strip(lsbOutput.value)));
    }
  }

  // ---------------------------------------------------------------- SYSTEM_PACKAGE_MAP

  /** The keys of SYSTEM_PACKAGE_MAP, in declaration order. */
  const MappedTools: seq<string> := ["i2cdetect", "i2c-tools", "decode-dimms", "dmidecode", "textual", "linkify_it"]

  /** The distribution IDs every entry of SYSTEM_PACKAGE_MAP lists. */
  predicate IsMappedDistro(d: string)
  {
    d in {"arch", "debian", "ubuntu", "fedora", "rhel", "centos", "rocky", "almalinux", "opensuse", "gentoo"}
  }

  /** The native package name of a mapped tool on a mapped distribution (each entry lists one name). */
  function NativeName(package: string, d: string): string
  {
    if package == "dmidecode" then (if d == "gentoo" then "sys-apps/dmidecode" else "dmidecode")
    else if package == "textual" then
      (if d == "arch" then "python-textual" else if d == "gentoo" then "dev-python/textual" else "python3-textual")
    else if package == "linkify_it" then
      (if d == "arch" then "python-linkify-it-py" else if d == "gentoo" then "dev-python/linkify-it-py" else "python3-linkify-it-py")
    else (if d == "gentoo" then "sys-apps/i2c-tools" else "i2c-tools")
  }

  /** SYSTEM_PACKAGE_MAP[package].get(d, []) when package is a key, and [] otherwise. */
  function PackageNames(package: string, d: string): seq<string>
  {
    if package in MappedTools && IsMappedDistro(d) then [NativeName(package, d)] else []
  }

  /** The names SYSTEM_PACKAGE_MAP lists for the i2c tools and dmidecode hold no space. */
  lemma ToolNamesNoSpace()
    ensures ' ' !in "sys-apps/dmidecode" && ' ' !in "dmidecode" && ' ' !in "sys-apps/i2c-tools" && ' ' !in "i2c-tools"
  {
  }

  /** The names SYSTEM_PACKAGE_MAP lists for textual hold no space. */
  lemma TextualNamesNoSpace()
    ensures ' ' !in "python-textual" && ' ' !in "dev-python/textual" && ' ' !in "python3-textual"
  {
  }

  /** The names SYSTEM_PACKAGE_MAP lists for linkify_it hold no space. */
  lemma LinkifyNamesNoSpace()
    ensures ' ' !in "python-linkify-it-py" && ' ' !in "dev-python/linkify-it-py" && ' ' !in "python3-linkify-it-py"
  {
  }

  /** No native package name contains a space, so joining them with spaces can be undone. */
  lemma NativeNameNoSpace(package: string, d: string)
    ensures ' ' !in NativeName(package, d)
  {
    ToolNamesNoSpace();
    TextualNamesNoSpace();
    LinkifyNamesNoSpace();
  }

  /** system_packages: the native names of the packages, in input order. */
  function Mapped(packages: seq<string>, d: string): seq<string>
  {
    if packages == [] then []
    else Mapped(packages[..|packages| - 1], d) + PackageNames(packages[|packages| - 1], d)
  }

  /** The names of a concatenation are the names of each part, in order. */
  lemma {:induction false} MappedAppend(a: seq<string>, b: seq<string>, d: string)
    ensures Mapped(a + b, d) == Mapped(a, d) + Mapped(b, d)
    decreases |b|
  {
    if b == [] {
      assert a + b == a;
    } else {
      var n := |b| - 1;
      assert (a + b)[..|a + b| - 1] == a + b[..n];
      assert (a + b)[|a + b| - 1] == b[n];
      MappedAppend(a, b[..n], d);
    }
  }

  /** Every name comes from a package of the list, unknown packages and distributions contribute nothing, and no name holds a space. */
  lemma {:induction false} MappedSpec(packages: seq<string>, d: string)
    ensures forall n :: n in Mapped(packages, d) ==> exists i :: 0 <= i < |packages| && n in PackageNames(packages[i], d)
    ensures forall n :: n in Mapped(packages, d) ==> ' ' !in n
    ensures !IsMappedDistro(d) ==> Mapped(packages, d) == []
    ensures (forall i :: 0 <= i < |packages| ==> packages[i] !in MappedTools) ==> Mapped(packages, d) == []
    ensures |Mapped(packages, d)| <= |packages|
  {
    if packages != [] {
      var k := |packages| - 1;
      MappedSpec(packages[..k], d);
      assert forall i :: 0 <= i < k ==> packages[..k][i] == packages[i];
      NativeNameNoSpace(packages[k], d);
    }
  }

  // ---------------------------------------------------------------- the install command

  /** construct_install_command */
  function InstallCommand(packages: seq<string>, distro: DistroInfo): (r: string)
    ensures r != [] ==> packages != [] && distro.installCmd != [] && StartsWith(r, "sudo " + distro.installCmd + " ")
  {
    if packages == [] || distro.installCmd == [] then ""
    else
      var names := Mapped(packages, distro.id);
      if names == [] then "" else "sudo " + distro.installCmd + " " + Join(names, " ")
  }

  method ConstructInstallCommand(packages: seq<string>, distro: DistroInfo) returns (cmd: string)
    ensures cmd == InstallCommand(packages, distro)
  {
    if packages == [] {
      return "";
    }
    var distroId := distro.id;
    var installCmd := distro.installCmd;
    if installCmd == [] {
      return "";
    }
    var systemPackages: seq<string> := [];
    for i := 0 to |packages|
      invariant systemPackages == Mapped(packages[..i], distroId)
    {
      assert packages[..i + 1][..i] == packages[..i];
      if packages[i] in MappedTools {
        systemPackages := systemPackages + PackageNames(packages[i], distroId);
      }
    }
    assert packages[..|packages|] == packages;
    if systemPackages == [] {
      return "";
    }
    if distroId == "gentoo" {
      cmd := "sudo " + installCmd + " " + Join(systemPackages, " ");
    } else {
      cmd := "sudo " + installCmd + " " + Join(systemPackages, " ");
    }
  }

  /**
   * The command is empty exactly for an empty list, an empty install prefix, or no mapped name;
   * otherwise it is "sudo", the prefix and the names, and splitting its tail on spaces gives the
   * names back in input order.
   */
  lemma InstallCommandSpec(packages: seq<string>, distro: DistroInfo)
    ensures InstallCommand(packages, distro) == [] <==> packages == [] || distro.installCmd == [] || Mapped(packages, distro.id) == []
    ensures InstallCommand(packages, distro) != [] ==>
      var prefix := "sudo " + distro.installCmd + " ";
      && StartsWith(InstallCommand(packages, distro), prefix)
      && SplitOn(InstallCommand(packages, distro)[|prefix|..], ' ') == Mapped(packages, distro.id)
  {
    var names := Mapped(packages, distro.id);
    if InstallCommand(packages, distro) != [] {
      var prefix := "sudo " + distro.installCmd + " ";
      var cmd := InstallCommand(packages, distro);
      assert cmd == prefix + Join(names, " ");
      assert cmd[..|prefix|] == prefix && cmd[|prefix|..] == Join(names, " ");
      MappedSpec(packages, distro.id);
      forall k | 0 <= k < |names| ensures ' ' !in names[k] {
        assert names[k] in names;
      }
      SplitOnJoin(names, ' ');
    }
  }

  /** Every core tool and Python package gets a command on every detected distribution except "oracle". */
  lemma MappedToolsInstallable(id: string, package: string)
    requires ClassifyOsRelease(id).Some? && ClassifyOsRelease(id).value.0 != "oracle"
    requires package in MappedTools
    ensures InstallCommand([package], WithManager(UnknownDistro, ClassifyOsRelease(id).value)) ==
      "sudo " + ClassifyOsRelease(id).value.1.installCmd + " " + NativeName(package, ClassifyOsRelease(id).value.0)
  {
    var c := ClassifyOsRelease(id).value;
    assert IsMappedDistro(c.0);
    assert Mapped([package], c.0) == Mapped([], c.0) + PackageNames(package, c.0);
  }

  /** "oracle" is detected with dnf, but no entry of SYSTEM_PACKAGE_MAP lists it, so nothing can be installed there. */
  lemma OracleHasNoPackages(packages: seq<string>)
    ensures ClassifyOsRelease("oracle") == Some(("oracle", Dnf))
    ensures InstallCommand(packages, WithManager(UnknownDistro, ("oracle", Dnf))) == ""
  {
    MappedSpec(packages, "oracle");
  }

  /**
   * The guard of auto_install_dependencies: the command it would run, or None when it returns
   * False without running anything.
   */
  function AutoInstallPlan(packages: seq<string>, distro: DistroInfo): Option<string>
  {
    if packages == [] || distro.id == "unknown" then None
    else
      var cmd := InstallCommand(packages, distro);
      if cmd == [] then None else Some(cmd)
  }

  /** Nothing runs for an empty list, an unknown distribution or an empty command; what runs is the sudo command. */
  lemma AutoInstallPlanSpec(packages: seq<string>, distro: DistroInfo)
    ensures AutoInstallPlan(packages, distro).None? <==> packages == [] || distro.id == "unknown" || InstallCommand(packages, distro) == []
    ensures AutoInstallPlan(packages, distro).Some? ==> StartsWith(AutoInstallPlan(packages, distro).value, "sudo " + distro.installCmd + " ")
  {
    InstallCommandSpec(packages, distro);
  }

  // ---------------------------------------------------------------- missing dependencies

  const CoreTools: seq<string> := ["i2cdetect", "decode-dimms", "dmidecode"]
  const TuiPackages: seq<string> := ["textual", "linkify_it"]

  /** The names of the list that the oracle reports as unavailable, in list order. */
  function Unavailable(names: seq<string>, available: string -> bool): (r: seq<string>)
    ensures forall n :: n in r <==> n in names && !available(n)
  {
    if names == [] then []
    else
      var last := names[|names| - 1];
      var before := Unavailable(names[..|names| - 1], available);
      assert forall n :: n in names <==> n in names[..|names| - 1] || n == last;
      if available(last) then before else before + [last]
  }

  /** requested_features.get(flag, False) */
  predicate Requested(features: map<string, bool>, flag: string)
  {
    flag in features && features[flag]
  }

  /** get_missing_dependencies; toolAvailable and packageAvailable stand for the probes it runs. */
  method GetMissingDependencies(features: map<string, bool>, toolAvailable: string -> bool, packageAvailable: string -> bool)
    returns (system: seq<string>, python: seq<string>)
    ensures system == if Requested(features, "core") then Unavailable(CoreTools, toolAvailable) else []
    ensures python == if Requested(features, "tui") then Unavailable(TuiPackages, packageAvailable) else []
  {
    system := [];
    python := [];
    if Requested(features, "core") {
      for i := 0 to |CoreTools|
        invariant system == Unavailable(CoreTools[..i], toolAvailable)
      {
        assert CoreTools[..i + 1][..i] == CoreTools[..i];
        if !toolAvailable(CoreTools[i]) {
          system := system + [CoreTools[i]];
        }
      }
      assert CoreTools[..|CoreTools|] == CoreTools;
    }
    if Requested(features, "tui") {
      if !packageAvailable("textual") {
        python := python + ["textual"];
      }
      if !packageAvailable("linkify_it") {
        python := python + ["linkify_it"];
      }
      assert TuiPackages[..1] == ["textual"];
      assert python == Unavailable(TuiPackages, packageAvailable);
    }
  }

  /** A listed name is one of the fixed tools or packages and really unavailable; nothing is listed for a feature not requested. */
  lemma MissingSpec(features: map<string, bool>, toolAvailable: string -> bool, packageAvailable: string -> bool)
    ensures forall n :: n in Unavailable(CoreTools, toolAvailable) <==> (n == "i2cdetect" || n == "decode-dimms" || n == "dmidecode") && !toolAvailable(n)
    ensures forall n :: n in Unavailable(TuiPackages, packageAvailable) <==> (n == "textual" || n == "linkify_it") && !packageAvailable(n)
    ensures |Unavailable(CoreTools, toolAvailable)| <= 3 && |Unavailable(TuiPackages, packageAvailable)| <= 2
  {
    UnavailableLength(CoreTools, toolAvailable);
    UnavailableLength(TuiPackages, packageAvailable);
  }

  lemma {:induction false} UnavailableLength(names: seq<string>, available: string -> bool)
    ensures |Unavailable(names, available)| <= |names|
  {
    if names != [] {
      UnavailableLength(names[..|names| - 1], available);
    }
  }
}
