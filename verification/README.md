# hil-vpn: per-network OpenVPN server configuration

A Dafny model of `cmd/hil-vpn-privop/openvpn-conf.go` from hil-vpn. That
file is the part of the privileged helper `hil-vpn-privop` that provisions a
VPN. From a VPN name, a VLAN and a port it builds an `OpenVpnCfg`, whose static
key comes from `openvpn --genkey`. It renders the OpenVPN server config for
that VPN. The config names a tap device with a random, collision-avoiding
suffix, pins the cipher and runs the VLAN hook. `Save` then writes the config
and the key to `/etc/openvpn/server`. Every error it returns leaves the
filesystem as it was before.

The project has six modules:

- `Wrappers`: `Option` and `Result`.
- `Base64Url`: the unpadded URL-safe base64 of section 5 of RFC 4648, which
  Go's `base64.RawURLEncoding` implements. It comes with a reference decoder,
  so that injectivity can be stated.
- `Decimal`: how `text/template` prints a `uint16`, with a parser as its
  inverse.
- `Text`: joining text into lines and splitting it at newlines. These are
  inverse to each other, and are used to read the rendered document line by
  line.
- `Os`: the filesystem as `Save` sees it. It is a class with a
  `files: map<Path, FileEntry>` field that three methods change in place:
  exclusive create, write and remove.
- `OpenVpnConf`: the core. It holds the derived names, the interface name,
  the template, the constructor and `Save`.

What the source takes from outside is an input here:

- the 16 random bytes behind the interface name;
- the result of the `openvpn --genkey` subprocess;
- the helper directory `staticconfig.Libexecdir`;
- a `Faults` value, for the kernel's and the writes' failures other than
  "file exists".

`Save` is an imperative method on an `Os.FileSystem`. Go's two deferred
cleanups become statements after a labelled block. Each cleanup runs only if
its `defer` was reached, and it reads the error as it stands when `Save`
returns. That error is the one Go's closures capture.

## Model

| member | source | states |
|---|---|---|
| OpenVpnConf.CfgPath | cmd/hil-vpn-privop/openvpn-conf.go:51-53 | The config path has the config directory and "/" as its prefix and ".conf" as its suffix. The VPN name is exactly what lies between them. |
| OpenVpnConf.ServiceName | cmd/hil-vpn-privop/openvpn-conf.go:61-63 | The unit name has "openvpn-server@" as its prefix, and the VPN name is exactly the rest. |
| OpenVpnConf.DerivedNamesInjective | cmd/hil-vpn-privop/openvpn-conf.go:49-63 | Each derived name (config path, key path, systemd unit name) is equal for two VPN names exactly when the names are equal. |
| OpenVpnConf.CfgPathIsNeverKeyPath | cmd/hil-vpn-privop/openvpn-conf.go:51-58 | No VPN's config path is ever any VPN's key path. |
| OpenVpnConf.KeyPath | cmd/hil-vpn-privop/openvpn-conf.go:56-58 | The key path is the config directory plus the key-file name that the `secret` line of the config refers to. The VPN name can be read back from it. |
| OpenVpnConf.NewInterfaceName | cmd/hil-vpn-privop/openvpn-conf.go:120-125 | The fragment has 12 characters, all from the base64url alphabet. "tap" followed by it is exactly 15 characters, the kernel's limit. It is the encoding of the first 9 random bytes, and holds no newline. |
| OpenVpnConf.InterfaceNameFromFirstNineBytes | cmd/hil-vpn-privop/openvpn-conf.go:110-124 | Two draws give the same fragment exactly when their first 9 bytes agree. Bytes 9 to 15 never matter, and each of the first 9 does. |
| OpenVpnConf.DocumentLinesHaveNoNewline | cmd/hil-vpn-privop/openvpn-conf.go:17-35 | The template has 19 lines, counting the empty ones at the start and end. None holds a newline unless a substituted value does. |
| OpenVpnConf.Render | cmd/hil-vpn-privop/openvpn-conf.go:17-35 | The template's 19 lines, holes filled, joined with newlines. Whenever the VPN name and helper directory hold no newline, splitting the document at newlines gives back exactly those lines. |
| OpenVpnConf.RenderedDirectives | cmd/hil-vpn-privop/openvpn-conf.go:17-35 | The rendered lines are: `dev tap<fragment>`, `secret` with the name of the key file that Save writes, `cipher AES-256-CBC`, `lport <port>` in decimal, the `up` hook with `<vlan>` in decimal, `script-security 2`, `user nobody` and `group nobody`. |
| OpenVpnConf.FixedLinesVerbatim | cmd/hil-vpn-privop/openvpn-conf.go:17-35 | Every line without a hole is the same in any two renderings, whatever the config, directory and random bytes. |
| OpenVpnConf.RenderDeterminesFields | cmd/hil-vpn-privop/openvpn-conf.go:17-35 | Two equal documents with the same helper directory come from the same name, port, VLAN and interface fragment. |
| OpenVpnConf.NewOpenVpnConfig | cmd/hil-vpn-privop/openvpn-conf.go:128-139 | It succeeds exactly when key generation did. The config then carries the given name, VLAN and port, and the generator's output as its key. Otherwise the error is "Error invoking openvpn: " followed by the cause. |
| OpenVpnConf.SaveError | cmd/hil-vpn-privop/openvpn-conf.go:70-98 | The error is that of the first step that fails, in the source's order. An existing config gives Exist(config path), and any other refusal of its create gives OpenFailed(config path). Then an existing key gives Exist(key path), and any other refusal gives OpenFailed(key path). Then an interrupted config write gives WriteFailed(config path), and an interrupted key write gives WriteFailed(key path). There is no error exactly when both paths were free and no fault occurred. |
| OpenVpnConf.Save | cmd/hil-vpn-privop/openvpn-conf.go:66-99 | The error returned is exactly SaveError for the files before the call: each of Exist, OpenFailed and WriteFailed, with the path of the step that failed. On any error the file map is exactly as before. On success, exactly the config (the rendered document) and the key (byte for byte) are added, both with mode 0600, owner-only. Every VPN that had both files or neither still does. |
| OpenVpnConf.SavedKeepsPairs | cmd/hil-vpn-privop/openvpn-conf.go:66-99 | Adding one VPN's config and key together never leaves any VPN with one of the two files and not the other. |
| Base64Url.Encode | cmd/hil-vpn-privop/openvpn-conf.go:124 | The unpadded encoding of n bytes has ceil(4n/3) characters, all from the URL-safe alphabet. |
| Base64Url.Symbol | cmd/hil-vpn-privop/openvpn-conf.go:124 | Each 6-bit value maps to one alphabet symbol, and the symbol maps back to the value. |
| Base64Url.DecodeEncode | cmd/hil-vpn-privop/openvpn-conf.go:124 | Decoding the encoding of any byte string gives it back. |
| Base64Url.EncodeInjective | cmd/hil-vpn-privop/openvpn-conf.go:124 | Distinct byte strings have distinct encodings. |
| Base64Url.UnsextetsSextets | cmd/hil-vpn-privop/openvpn-conf.go:124 | Regrouping the 6-bit groups of any byte string gives the bytes back. |
| Base64Url.SextetsAppend | cmd/hil-vpn-privop/openvpn-conf.go:124 | The encoding proceeds three bytes at a time: a prefix of 3k bytes is encoded independently of what follows it. |
| Base64Url.EncodePrefix | cmd/hil-vpn-privop/openvpn-conf.go:124 | The first 4k characters of an encoding are the encoding of the first 3k bytes. |
| Decimal.Show | cmd/hil-vpn-privop/openvpn-conf.go:27 | A number prints as at least one ASCII digit, with no leading zero except for 0 itself. |
| Decimal.ParseShow | cmd/hil-vpn-privop/openvpn-conf.go:27 | Reading the printed digits back gives the number. |
| Decimal.ShowInjective | cmd/hil-vpn-privop/openvpn-conf.go:29 | Distinct ports or VLANs print differently. |
| Text.LinesUnlines | cmd/hil-vpn-privop/openvpn-conf.go:17-35 | Splitting lines that were joined with newlines, none of which holds a newline, gives the lines back. |
| Text.UnlinesLines | cmd/hil-vpn-privop/openvpn-conf.go:17-35 | Joining the lines of a text with newlines gives the text back. |
| Os.FileSystem.CreateExclusive | cmd/hil-vpn-privop/openvpn-conf.go:70 | Creating with O_CREATE and O_EXCL: Exist when the path is present, and otherwise the injected refusal. It succeeds exactly when the path is free and nothing refuses. On success it adds an empty file with the given mode and changes nothing else. On failure it changes nothing. |
| Os.FileSystem.Write | cmd/hil-vpn-privop/openvpn-conf.go:97 | It appends the bytes it got through to the open file and keeps its mode. An interrupted write reports WriteFailed. |
| Os.FileSystem.Remove | cmd/hil-vpn-privop/openvpn-conf.go:77 | The path is gone and every other file is untouched. |
| Os.Written | cmd/hil-vpn-privop/openvpn-conf.go:94 | A write never gets through more bytes than it was given, and a complete write gets through all of them. |

## Left out

- Randomness: the 16 bytes from `crypto/rand` are a parameter of
  `NewInterfaceName` and `Save`.
- `chkfatal`: the fatal exit on an entropy failure is not modelled. That exit
  would happen inside `Save`: the template draws the interface name while it
  is being executed into the config file, after both files were created. It
  would skip the deferred cleanups, leaving a partly written config, an empty
  key file and a name on which every later `Save` fails with Exist. The
  guarantees of `Save` in this model cover every error `Save` returns, not
  that exit.
- Key generation: running `openvpn --genkey --secret /dev/fd/1` is a
  parameter of `NewOpenVpnConfig`. It is the `KeyGenOutput` value: the
  output, or the cause of the failure. `string(output)` is the identity,
  since Go strings are modelled as Dafny strings, one character per byte.
- `staticconfig.Libexecdir` is a parameter (`libexecdir`), because the
  `internal/staticconfig` package is not part of this model.
- Template engine: `text/template` and `template.Must` are not modelled. The
  template is written out as its 19 lines with five holes. The only way
  `Execute` fails at run time is an error from the writer, and
  `Faults.cfgWrite` stands for that.
- OpenVpnConf.NewInterfaceName: takes the random bytes instead of the
  unused `cfg` receiver. It is therefore a function of them: each rendering
  gets a name determined by the first 9 of the bytes it is given.
- File handles: `Close` is not modelled. The errors that `Close` and
  `os.Remove` return, which the source ignores, are not modelled either;
  `Remove` always succeeds.
- Inode semantics, the process umask and the other permission bits are not
  modelled. A mode is a number, and "owner-only" means the low six bits are
  zero. A umask can only clear bits, so it cannot break that.
- Os.FileSystem.CreateExclusive: an existing path always gives Exist, even
  when the injected refusal is set. Among failures the model only tells
  "exists" apart from "any other reason".
- Os.Written: an interrupted write that reports more bytes than it was
  given is clamped to the data's length.
- Paths are compared as strings. Directories and the kernel's path
  resolution (`/`, `.` and `..`) are not modelled. So DerivedNamesInjective,
  SavedKeepsPairs and the pairing ensures of Save hold for the map of
  strings. For the real filesystem they assume a VPN name without `/`, which
  the source does not check. For example, with the name `./x` while VPN `x`
  already has a config, the source gets EEXIST but the model succeeds. With
  the name `z/../hil-vpn-b`, and directories `z` and `hil-vpn-z` present,
  the source creates the config of VPN `hil-vpn-b` and the key of VPN `b`.
  That leaves both of those VPNs with one file and not the other.
- Concurrency: two processes saving the same VPN at once are not modelled.
  One `Save` runs against one map, start to finish.
- Go's `error` values are modelled as `Os.Error` (which path, and which
  stage failed) and as a string for the key generator. Error wrapping and
  message text are not modelled, except for the `"Error invoking openvpn: "`
  prefix.
- Base64Url.Decode is a reference inverse that the source does not have. It
  exists only to state that the encoding is injective.
- OpenVpnConf.Render, RenderedDirectives, FixedLinesVerbatim and
  RenderDeterminesFields assume that the VPN name and the helper directory
  hold no newline, since the source does not check for one.
