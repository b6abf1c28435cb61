/**
 * Per-network OpenVPN server configuration for hil-vpn-privop: the paths and
 * unit name derived from a VPN's name, the rendered config document, the
 * random interface name, the constructor that obtains a static key, and
 * Save, which writes the config and the key so that every error it returns
 * leaves the filesystem as it was.
 *
 * What the source draws from outside is an input here: the 16 random bytes
 * behind the interface name, the output of `openvpn --genkey`, the helper
 * script directory (staticconfig.Libexecdir), and the failures of the
 * kernel and of writes (Faults).
 */
module OpenVpnConf {

  import opened Wrappers
  import opened Text
  import Base64Url
  import Decimal
  import Os

  type uint16 = x: int | 0 <= x < 0x1_0000

  type byte = Base64Url.byte

  /** The directory holding every generated config and key. */
  const ConfigDir: string := "/etc/openvpn/server"

  /** Longest network interface name the kernel accepts (IFNAMSIZ - 1). */
  const MaxInterfaceNameLength: nat := 15

  /** The in-memory config of one VPN. */
  datatype OpenVpnCfg = OpenVpnCfg(name: string, key: string, port: uint16, vlan: uint16)

  // ---------------------------------------------------------------------
  // Names derived from the VPN name

  /**
   * Path of the config file of the named VPN: the name can be read back
   * between the directory prefix and the ".conf" suffix.
   */
  function CfgPath(name: string): (p: string)
    ensures |p| == |ConfigDir| + |name| + 6
    ensures p[..|ConfigDir| + 1] == ConfigDir + "/" && p[|p| - 5..] == ".conf"
    ensures p[|ConfigDir| + 1..|p| - 5] == name
  {
    ConfigDir + "/" + name + ".conf"
  }

  /** Base name of the key file of the named VPN, as the config refers to it. */
  function KeyFileName(name: string): string
  {
    "hil-vpn-" + name + ".key"
  }

  /**
   * Path of the static key file of the named VPN: the directory joined with
   * the key-file name the config refers to, from which the name can be read
   * back.
   */
  function KeyPath(name: string): (p: string)
    ensures p == ConfigDir + "/" + KeyFileName(name)
    ensures |p| == |ConfigDir| + |name| + 13
    ensures p[|ConfigDir| + 9..|p| - 4] == name
  {
    ConfigDir + "/hil-vpn-" + name + ".key"
  }

  /**
   * Name of the systemd unit that runs the named VPN: an instance of the
   * openvpn-server@ template unit, whose instance name is the VPN name.
   */
  function ServiceName(vpnName: string): (u: string)
    ensures |u| == |vpnName| + 15
    ensures u[..15] == "openvpn-server@" && u[15..] == vpnName
  {
    "openvpn-server@" + vpnName
  }

  /** Removing a common prefix and suffix recovers the middle. */
  lemma StripAffixes(pre: string, a: string, b: string, suf: string)
    requires pre + a + suf == pre + b + suf
    ensures a == b
  {
    var s, t := pre + a + suf, pre + b + suf;
    assert |a| == |b|;
    assert a == s[|pre|..|pre| + |a|];
    assert b == t[|pre|..|pre| + |b|];
  }

  /** Each derived name determines the VPN name it was derived from. */
  lemma DerivedNamesInjective(n: string, m: string)
    ensures CfgPath(n) == CfgPath(m) <==> n == m
    ensures KeyPath(n) == KeyPath(m) <==> n == m
    ensures ServiceName(n) == ServiceName(m) <==> n == m
  {
    if CfgPath(n) == CfgPath(m) {
      StripAffixes(ConfigDir + "/", n, m, ".conf");
    }
    if KeyPath(n) == KeyPath(m) {
      StripAffixes(ConfigDir + "/hil-vpn-", n, m, ".key");
    }
    if ServiceName(n) == ServiceName(m) {
      StripAffixes("openvpn-server@", n, m, "");
      assert "openvpn-server@" + n + "" == ServiceName(n);
      assert "openvpn-server@" + m + "" == ServiceName(m);
    }
  }

  /** No config path is ever a key path: one ends in "f", the other in "y". */
  lemma CfgPathIsNeverKeyPath(n: string, m: string)
    ensures CfgPath(n) != KeyPath(m)
  {
    var c, k := CfgPath(n), KeyPath(m);
    assert c[|c| - 1] == 'f';
    assert k[|k| - 1] == 'y';
  }

  // ---------------------------------------------------------------------
  // Interface name

  /**
   * The interface-name fragment: the first 12 characters of the unpadded
   * base64url encoding of 16 random bytes. Those 12 characters are exactly
   * the encoding of the first 9 bytes, and "tap" followed by them is
   * exactly as long as the kernel allows an interface name to be.
   */
  function NewInterfaceName(random: seq<byte>): (r: string)
    requires |random| == 16
    ensures |r| == 12
    ensures |"tap" + r| == MaxInterfaceNameLength
    ensures forall k :: 0 <= k < |r| ==> Base64Url.IsSymbol(r[k])
    ensures r == Base64Url.Encode(random[..9])
    ensures NoNewline(r)
  {
    Base64Url.EncodePrefix(random, 3);
    Base64Url.Encode(random)[..12]
  }

  /** The interface name depends on the first 9 random bytes, and on all of them. */
  lemma InterfaceNameFromFirstNineBytes(random: seq<byte>, random': seq<byte>)
    requires |random| == 16 && |random'| == 16
    ensures NewInterfaceName(random) == NewInterfaceName(random') <==> random[..9] == random'[..9]
  {
    if NewInterfaceName(random) == NewInterfaceName(random') {
      Base64Url.EncodeInjective(random[..9], random'[..9]);
    }
  }

  // ---------------------------------------------------------------------
  // The config document

  /**
   * Line i of the template, counting from 0, with its five holes filled in.
   * Lines 0, 2, 5, 9, 11, 15 and 18 are empty. Long fixed lines are spelled
   * in pieces; each is still one line of the template.
   */
  function TemplateLine(cfg: OpenVpnCfg, libexecdir: string, ifname: string, i: nat): string
  {
    match i
    case 1 => "# This file is automatically generated" + " by hil-vpn-privop;" + " do not modify manually."
    case 3 => "dev tap" + ifname
    case 4 => "secret hil-vpn-" + cfg.name + ".key"
    case 6 => "# The default cipher is insecure," + " so we explicitly set the cipher" + " to the openvpn"
    case 7 => "# project's recommendation." + " See https://community.openvpn.net" + "/openvpn/wiki/SWEET32"
    case 8 => "cipher AES-256-CBC"
    case 10 => "lport " + Decimal.Show(cfg.port)
    case 12 => "up \"" + libexecdir + "/hil-vpn-hook-up " + Decimal.Show(cfg.vlan) + "\""
    case 13 => "# Needed to permit" + " the above to actually run:"
    case 14 => "script-security 2"
    case 16 => "user nobody"
    case 17 => "group nobody"
    case _ => ""
  }

  /** The number of lines of the template. */
  const TemplateLength := 19

  /** The lines of the template, with its holes filled in. */
  function DocumentLines(cfg: OpenVpnCfg, libexecdir: string, ifname: string): seq<string>
  {
    seq(TemplateLength, i requires 0 <= i < TemplateLength => TemplateLine(cfg, libexecdir, ifname, i))
  }

  lemma NoNewlineConcat(a: string, b: string)
    requires NoNewline(a) && NoNewline(b)
    ensures NoNewline(a + b)
  {
    forall k | 0 <= k < |a + b| ensures (a + b)[k] != '\n' {
      if k < |a| {
        assert (a + b)[k] == a[k];
      } else {
        assert (a + b)[k] == b[k - |a|];
      }
    }
  }

  lemma NoNewlineConcat3(a: string, b: string, c: string)
    requires NoNewline(a) && NoNewline(b) && NoNewline(c)
    ensures NoNewline(a + b + c)
  {
    NoNewlineConcat(a, b);
    NoNewlineConcat(a + b, c);
  }

  // The fixed lines hold no newline. A long literal is spelled in pieces,
  // each of which the solver can check character by character.

  lemma BannerHasNoNewline()
    ensures NoNewline("# This file is automatically generated" + " by hil-vpn-privop;" + " do not modify manually.")
  {
    assert NoNewline("# This file is automatically generated");
    assert NoNewline(" by hil-vpn-privop;");
    assert NoNewline(" do not modify manually.");
    NoNewlineConcat3("# This file is automatically generated", " by hil-vpn-privop;", " do not modify manually.");
  }

  lemma CipherNoteHasNoNewline()
    ensures NoNewline("# The default cipher is insecure," + " so we explicitly set the cipher" + " to the openvpn")
  {
    assert NoNewline("# The default cipher is insecure,");
    assert NoNewline(" so we explicitly set the cipher");
    assert NoNewline(" to the openvpn");
    NoNewlineConcat3("# The default cipher is insecure,", " so we explicitly set the cipher", " to the openvpn");
  }

  lemma CipherLinkHasNoNewline()
    ensures NoNewline("# project's recommendation." + " See https://community.openvpn.net" + "/openvpn/wiki/SWEET32")
  {
    assert NoNewline("# project's recommendation.");
    assert NoNewline(" See https://community.openvpn.net");
    assert NoNewline("/openvpn/wiki/SWEET32");
    NoNewlineConcat3("# project's recommendation.", " See https://community.openvpn.net", "/openvpn/wiki/SWEET32");
  }

  lemma HookNoteHasNoNewline()
    ensures NoNewline("# Needed to permit" + " the above to actually run:")
  {
    assert NoNewline("# Needed to permit");
    assert NoNewline(" the above to actually run:");
    NoNewlineConcat("# Needed to permit", " the above to actually run:");
  }

  /** No line of the document holds a newline when no substituted text does. */
  lemma DocumentLinesHaveNoNewline(cfg: OpenVpnCfg, libexecdir: string, ifname: string)
    requires NoNewline(cfg.name) && NoNewline(libexecdir) && NoNewline(ifname)
    ensures var ls := DocumentLines(cfg, libexecdir, ifname);
      |ls| == 19 && forall i :: 0 <= i < |ls| ==> NoNewline(ls[i])
  {
    var ls := DocumentLines(cfg, libexecdir, ifname);
    forall i | 0 <= i < |ls| ensures NoNewline(ls[i]) {
      if i == 1 {
        BannerHasNoNewline();
      } else if i == 3 {
        NoNewlineConcat("dev tap", ifname);
      } else if i == 4 {
        NoNewlineConcat3("secret hil-vpn-", cfg.name, ".key");
      } else if i == 6 {
        CipherNoteHasNoNewline();
      } else if i == 7 {
        CipherLinkHasNoNewline();
      } else if i == 8 {
        assert NoNewline("cipher AES-256-CBC");
      } else if i == 10 {
        var port := Decimal.Show(cfg.port);
        assert NoNewline(port);
        NoNewlineConcat("lport ", port);
      } else if i == 12 {
        var vlan := Decimal.Show(cfg.vlan);
        assert NoNewline(vlan);
        NoNewlineConcat3("up \"", libexecdir, "/hil-vpn-hook-up ");
        NoNewlineConcat3("up \"" + libexecdir + "/hil-vpn-hook-up ", vlan, "\"");
      } else if i == 13 {
        HookNoteHasNoNewline();
      } else if i == 14 {
        assert NoNewline("script-security 2");
      } else if i == 16 {
        assert NoNewline("user nobody");
      } else if i == 17 {
        assert NoNewline("group nobody");
      } else {
        assert ls[i] == "";
      }
    }
  }

  /**
   * The rendered config document. The template opens with a newline and
   * ends every line with one; the interface name is drawn afresh from the
   * random bytes on every rendering. Read line by line, the document is
   * exactly the template's lines with the holes filled, as long as the VPN
   * name and the helper directory hold no newline.
   */
  function Render(cfg: OpenVpnCfg, libexecdir: string, random: seq<byte>): (r: string)
    requires |random| == 16
    ensures NoNewline(cfg.name) && NoNewline(libexecdir)
            ==> Lines(r) == DocumentLines(cfg, libexecdir, NewInterfaceName(random))
  {
    var ls := DocumentLines(cfg, libexecdir, NewInterfaceName(random));
    if NoNewline(cfg.name) && NoNewline(libexecdir) then
      DocumentLinesHaveNoNewline(cfg, libexecdir, NewInterfaceName(random));
      LinesUnlines(ls);
      Unlines(ls)
    else
      Unlines(ls)
  }

  /**
   * The directives the VPN daemon reads: the tap device, the key file (the
   * base name of the key path Save writes), the pinned cipher, the port and
   * VLAN in decimal, the hook and its script-security level, and the
   * unprivileged user and group.
   */
  lemma RenderedDirectives(cfg: OpenVpnCfg, libexecdir: string, random: seq<byte>)
    requires |random| == 16
    requires NoNewline(cfg.name) && NoNewline(libexecdir)
    ensures var ls := Lines(Render(cfg, libexecdir, random));
      && |ls| == 19
      && ls[3] == "dev tap" + NewInterfaceName(random)
      && ls[4] == "secret " + KeyFileName(cfg.name)
      && KeyPath(cfg.name) == ConfigDir + "/" + KeyFileName(cfg.name)
      && ls[8] == "cipher AES-256-CBC"
      && ls[10] == "lport " + Decimal.Show(cfg.port)
      && ls[12] == "up \"" + libexecdir + "/hil-vpn-hook-up " + Decimal.Show(cfg.vlan) + "\""
      && ls[14] == "script-security 2"
      && ls[16] == "user nobody"
      && ls[17] == "group nobody"
  {
  }

  /**
   * Every line without a hole is the same whatever the config, the helper
   * directory and the random bytes: it is copied from the template verbatim.
   */
  lemma FixedLinesVerbatim(cfg: OpenVpnCfg, libexecdir: string, random: seq<byte>,
                           cfg': OpenVpnCfg, libexecdir': string, random': seq<byte>)
    requires |random| == 16 && |random'| == 16
    requires NoNewline(cfg.name) && NoNewline(libexecdir)
    requires NoNewline(cfg'.name) && NoNewline(libexecdir')
    ensures var ls, ls' := Lines(Render(cfg, libexecdir, random)), Lines(Render(cfg', libexecdir', random'));
      && |ls| == |ls'| == 19
      && forall i :: 0 <= i < 19 && i != 3 && i != 4 && i != 10 && i != 12 ==> ls[i] == ls'[i]
  {
  }

  /**
   * The holes can be read back from the document: two renderings with the
   * same helper directory are equal only when the VPN name, port, VLAN and
   * interface name all agree.
   */
  lemma RenderDeterminesFields(cfg: OpenVpnCfg, random: seq<byte>, cfg': OpenVpnCfg, random': seq<byte>,
                               libexecdir: string)
    requires |random| == 16 && |random'| == 16
    requires NoNewline(cfg.name) && NoNewline(cfg'.name) && NoNewline(libexecdir)
    requires Render(cfg, libexecdir, random) == Render(cfg', libexecdir, random')
    ensures cfg.name == cfg'.name && cfg.port == cfg'.port && cfg.vlan == cfg'.vlan
    ensures NewInterfaceName(random) == NewInterfaceName(random')
  {
    RenderedDirectives(cfg, libexecdir, random);
    RenderedDirectives(cfg', libexecdir, random');
    StripAffixes("dev tap", NewInterfaceName(random), NewInterfaceName(random'), "");
    var k, k' := KeyFileName(cfg.name), KeyFileName(cfg'.name);
    assert "secret " + k + ""
           == "secret " + k' + "";
    StripAffixes("secret ", k, k', "");
    StripAffixes("hil-vpn-", cfg.name, cfg'.name, ".key");
    StripAffixes("lport ", Decimal.Show(cfg.port), Decimal.Show(cfg'.port), "");
    Decimal.ShowInjective(cfg.port, cfg'.port);
    StripAffixes("up \"" + libexecdir + "/hil-vpn-hook-up ", Decimal.Show(cfg.vlan), Decimal.Show(cfg'.vlan), "\"");
    Decimal.ShowInjective(cfg.vlan, cfg'.vlan);
  }

  // ---------------------------------------------------------------------
  // Construction

  /** What running `openvpn --genkey --secret /dev/fd/1` gave: its output or why it failed. */
  datatype KeyGenOutput = Generated(output: string) | KeyGenFailed(cause: string)

  /**
   * A fresh config with the given name, VLAN and port and the generator's
   * output as its key; a failed generator gives an error and no config.
   */
  function NewOpenVpnConfig(name: string, vlan: uint16, port: uint16, keygen: KeyGenOutput)
    : (r: Result<OpenVpnCfg, string>)
    ensures r.Success? <==> keygen.Generated?
    ensures r.Success? ==> r.value.name == name && r.value.vlan == vlan && r.value.port == port
    ensures r.Success? ==> r.value.key == keygen.output
    ensures r.Failure? ==> r.error == "Error invoking openvpn: " + keygen.cause
  {
    match keygen
    case KeyGenFailed(cause) => Failure("Error invoking openvpn: " + cause)
    case Generated(output) => Success(OpenVpnCfg(name, output, port, vlan))
  }

  // ---------------------------------------------------------------------
  // Saving

  /**
   * The failures the kernel may inject into one Save: the two creates may
   * be refused for a reason other than an existing file, and the two
   * writes may stop short.
   */
  datatype Faults = Faults(
    cfgCreateRefused: bool,
    keyCreateRefused: bool,
    cfgWrite: Os.WriteOutcome,
    keyWrite: Os.WriteOutcome)

  /**
   * The error Save returns: that of the first step that fails, in the order
   * create config, create key, write config, write key. A path already
   * present gives Exist for that path, and is detected before any injected
   * refusal of the same create.
   */
  function SaveError(files: map<Os.Path, Os.FileEntry>, name: string, faults: Faults)
    : (r: Option<Os.Error>)
    // Collisions: the existing config, or the existing key once the config was created.
    ensures CfgPath(name) in files ==> r == Some(Os.Exist(CfgPath(name)))
    ensures CfgPath(name) !in files && !faults.cfgCreateRefused && KeyPath(name) in files
            ==> r == Some(Os.Exist(KeyPath(name)))
    // Every other failure is reported as the failing step's own error.
    ensures CfgPath(name) !in files && faults.cfgCreateRefused
            ==> r == Some(Os.OpenFailed(CfgPath(name)))
    ensures CfgPath(name) !in files && !faults.cfgCreateRefused
            && KeyPath(name) !in files && faults.keyCreateRefused
            ==> r == Some(Os.OpenFailed(KeyPath(name)))
    ensures CfgPath(name) !in files && KeyPath(name) !in files
            && !faults.cfgCreateRefused && !faults.keyCreateRefused && faults.cfgWrite.Interrupted?
            ==> r == Some(Os.WriteFailed(CfgPath(name)))
    ensures CfgPath(name) !in files && KeyPath(name) !in files
            && !faults.cfgCreateRefused && !faults.keyCreateRefused && faults.cfgWrite.Complete?
            && faults.keyWrite.Interrupted?
            ==> r == Some(Os.WriteFailed(KeyPath(name)))
    // Success exactly when both paths are free and nothing fails.
    ensures r.None? <==>
              && CfgPath(name) !in files && KeyPath(name) !in files
              && faults == Faults(false, false, Os.Complete, Os.Complete)
  {
    var cfgPath, keyPath := CfgPath(name), KeyPath(name);
    if cfgPath in files then Some(Os.Exist(cfgPath))
    else if faults.cfgCreateRefused then Some(Os.OpenFailed(cfgPath))
    else if keyPath in files then Some(Os.Exist(keyPath))
    else if faults.keyCreateRefused then Some(Os.OpenFailed(keyPath))
    else if faults.cfgWrite.Interrupted? then Some(Os.WriteFailed(cfgPath))
    else if faults.keyWrite.Interrupted? then Some(Os.WriteFailed(keyPath))
    else None
  }

  /** The config and key of the named VPN are both present or both absent. */
  predicate Paired(files: map<Os.Path, Os.FileEntry>, name: string)
  {
    CfgPath(name) in files <==> KeyPath(name) in files
  }

  /** The files a successful Save leaves: both new, both owner-only. */
  function Saved(files: map<Os.Path, Os.FileEntry>, cfg: OpenVpnCfg, doc: string)
    : map<Os.Path, Os.FileEntry>
  {
    files[CfgPath(cfg.name) := Os.FileEntry(doc, Os.OwnerReadWrite)]
         [KeyPath(cfg.name) := Os.FileEntry(cfg.key, Os.OwnerReadWrite)]
  }

  /**
   * Adding the config and the key of one VPN together keeps every VPN's
   * config and key paired: no other VPN's paths are touched.
   */
  lemma SavedKeepsPairs(files: map<Os.Path, Os.FileEntry>, cfg: OpenVpnCfg, doc: string, n: string)
    requires Paired(files, n)
    ensures Paired(Saved(files, cfg, doc), n)
  {
    if n != cfg.name {
      DerivedNamesInjective(n, cfg.name);
      CfgPathIsNeverKeyPath(n, cfg.name);
      CfgPathIsNeverKeyPath(cfg.name, n);
    }
  }

  /** The file Save creates, before anything is written into it. */
  const Created := Os.FileEntry("", Os.OwnerReadWrite)

  /**
   * Removing the files Save created, whatever was written into them, gives
   * back the files that were there before.
   */
  lemma RemovingCreatedRestores(files: map<Os.Path, Os.FileEntry>, p: Os.Path, q: Os.Path,
                                c: Os.FileEntry, d: Os.FileEntry)
    requires p !in files
    ensures files[p := Created] - {p} == files
    ensures q !in files ==> files[p := Created][q := Created][p := c] - {q} - {p} == files
    ensures q !in files ==> files[p := Created][q := Created][p := c][q := d] - {q} - {p} == files
  {
  }

  /** Writing the document and then the key in full into the two new files gives Saved. */
  lemma CompleteWritesSave(files: map<Os.Path, Os.FileEntry>, cfg: OpenVpnCfg, doc: string)
    ensures var p, q := CfgPath(cfg.name), KeyPath(cfg.name);
      files[p := Created][q := Created]
           [p := Os.FileEntry("" + doc[..|doc|], Os.OwnerReadWrite)]
           [q := Os.FileEntry("" + cfg.key[..|cfg.key|], Os.OwnerReadWrite)]
      == Saved(files, cfg, doc)
    ensures Os.OwnerOnly(Saved(files, cfg, doc)[CfgPath(cfg.name)].mode)
    ensures Os.OwnerOnly(Saved(files, cfg, doc)[KeyPath(cfg.name)].mode)
  {
    assert "" + doc[..|doc|] == doc;
    assert "" + cfg.key[..|cfg.key|] == cfg.key;
  }

  /**
   * Save the config and its static key: exclusively create the config file
   * and then the key file, both mode 0600, write the rendered document and
   * then the key. For every error Save returns, the files this call created
   * are removed again, so the filesystem is either unchanged or holds both
   * new files. A process exit while the template is executed (an entropy
   * failure drawing the interface name) returns nothing and runs no cleanup;
   * the random bytes being an input, that path is not part of this model.
   */
  method Save(cfg: OpenVpnCfg, fs: Os.FileSystem, libexecdir: string, random: seq<byte>, faults: Faults)
    returns (err: Option<Os.Error>)
    requires |random| == 16
    modifies fs
    // The error is that of the first step that fails.
    ensures err == SaveError(old(fs.files), cfg.name, faults)
    // All or nothing.
    ensures err.Some? ==> fs.files == old(fs.files)
    ensures err.None? ==> fs.files == Saved(old(fs.files), cfg, Render(cfg, libexecdir, random))
    ensures err.None? ==> Os.OwnerOnly(fs.files[CfgPath(cfg.name)].mode)
                          && Os.OwnerOnly(fs.files[KeyPath(cfg.name)].mode)
    // No VPN is ever left with a config but no key, or a key but no config.
    ensures forall n :: Paired(old(fs.files), n) ==> Paired(fs.files, n)
  {
    var cfgPath := CfgPath(cfg.name);
    var keyPath := KeyPath(cfg.name);
    CfgPathIsNeverKeyPath(cfg.name, cfg.name);
    // Whether each deferred cleanup has been registered.
    var cfgDeferred, keyDeferred := false, false;
    label body: {
      err := fs.CreateExclusive(cfgPath, Os.OwnerReadWrite, faults.cfgCreateRefused);
      if err.Some? {
        break body;
      }
      cfgDeferred := true;
      err := fs.CreateExclusive(keyPath, Os.OwnerReadWrite, faults.keyCreateRefused);
      if err.Some? {
        RemovingCreatedRestores(old(fs.files), cfgPath, keyPath, Created, Created);
        break body;
      }
      keyDeferred := true;
      // The template is executed into the config file; this is where the
      // interface name is drawn.
      var doc := Render(cfg, libexecdir, random);
      err := fs.Write(cfgPath, doc, faults.cfgWrite);
      if err.Some? {
        RemovingCreatedRestores(old(fs.files), cfgPath, keyPath, fs.files[cfgPath], Created);
        break body;
      }
      err := fs.Write(keyPath, cfg.key, faults.keyWrite);
      RemovingCreatedRestores(old(fs.files), cfgPath, keyPath, fs.files[cfgPath], fs.files[keyPath]);
      if err.None? {
        CompleteWritesSave(old(fs.files), cfg, doc);
        forall n | Paired(old(fs.files), n) ensures Paired(fs.files, n) {
          SavedKeepsPairs(old(fs.files), cfg, doc, n);
        }
      }
    }
    // The deferred cleanups run last-registered first, and both read the
    // error as it stands when Save returns.
    if keyDeferred && err.Some? {
      fs.Remove(keyPath);
    }
    if cfgDeferred && err.Some? {
      fs.Remove(cfgPath);
    }
  }
}
