/** Custom certificates: services/agent/internal/certs/certs.go. The agent keeps a certificate and
    a key file per host and regenerates the list that Traefik reads. */
module Certs {
  import opened Text
  import opened Sorting

  // ---- File names ----

  /** The class kept by `[^a-zA-Z0-9._-]+`. */
  predicate IsSafe(c: char) {
    || 'a' <= c <= 'z' || 'A' <= c <= 'Z' || '0' <= c <= '9'
    || c == '.' || c == '_' || c == '-'
  }

  predicate IsUnsafe(c: char) { !IsSafe(c) }

  /** Every run of unsafe characters becomes one underscore. */
  function ReplaceUnsafe(s: string): (r: string)
    ensures forall c :: c in r ==> IsSafe(c) && (c in s || c == '_')
    decreases |s|
  {
    if s == "" then ""
    else if IsSafe(s[0]) then [s[0]] + ReplaceUnsafe(s[1..])
    else
      TrimLeftDrops(s[1..], IsUnsafe);
      "_" + ReplaceUnsafe(TrimLeft(s[1..], IsUnsafe))
  }

  /** Safe text stays, and each run of unsafe characters is one underscore. */
  lemma {:induction false} RunsAreReplaced(safe: string, run: string, rest: string)
    requires (forall c :: c in safe ==> IsSafe(c)) && (forall c :: c in run ==> !IsSafe(c))
    requires run != "" && (rest == "" || IsSafe(rest[0]))
    ensures ReplaceUnsafe(safe + run + rest) == safe + "_" + ReplaceUnsafe(rest)
  {
    hide IsSafe, ReplaceUnsafe;
    if safe == "" {
      RunIsReplaced(run, rest);
      assert safe + run + rest == run + rest;
      assert safe + "_" + ReplaceUnsafe(rest) == "_" + ReplaceUnsafe(rest);
    } else {
      var c, t := safe[0], safe[1..];
      assert c in safe && forall x :: x in t ==> x in safe;
      RunsAreReplaced(t, run, rest);
      SafeStays(c, t + run + rest);
      assert safe + run + rest == [c] + (t + run + rest);
      assert [c] + (t + "_" + ReplaceUnsafe(rest)) == safe + "_" + ReplaceUnsafe(rest);
    }
  }

  lemma SafeStays(c: char, t: string)
    requires IsSafe(c)
    ensures ReplaceUnsafe([c] + t) == [c] + ReplaceUnsafe(t)
  {
    hide IsSafe;
    assert ([c] + t)[1..] == t;
  }

  lemma RunIsReplaced(run: string, rest: string)
    requires run != "" && (forall c :: c in run ==> !IsSafe(c)) && (rest == "" || IsSafe(rest[0]))
    ensures ReplaceUnsafe(run + rest) == "_" + ReplaceUnsafe(rest)
  {
    hide IsSafe;
    var s := run + rest;
    assert run[0] in run && s[0] == run[0] && s[1..] == run[1..] + rest;
    assert forall c :: c in run[1..] ==> c in run;
    if rest == "" {
      assert run[1..] + rest == run[1..];
      AllTrimmed(run[1..], IsUnsafe);
    } else {
      TrimLeftOfPadding(run[1..], rest, IsUnsafe);
    }
    assert TrimLeft(s[1..], IsUnsafe) == rest;
  }

  lemma {:induction false} AllTrimmed(s: string, cut: char -> bool)
    requires forall c :: c in s ==> cut(c)
    ensures TrimLeft(s, cut) == ""
  {
    if s != "" {
      assert s[0] in s;
      AllTrimmed(s[1..], cut);
    }
  }

  predicate IsEdge(c: char) {
    c == '.' || c == '-' || c == '_'
  }

  function SanitizeHost(host: string): string {
    var h := Trim(ReplaceUnsafe(Map(Lower, TrimSpace(host))), IsEdge);
    if h == "" || h == "." || h == ".." || Contains(h, "..") then "unknown" else h
  }

  predicate IsHostName(h: string) {
    && h != "" && !IsEdge(h[0]) && !IsEdge(h[|h| - 1])
    && (forall c :: c in h ==> IsSafe(c) && !('A' <= c <= 'Z'))
    && !Contains(h, "..")
  }

  lemma NoDotNoDots(s: string)
    requires '.' !in s
    ensures !Contains(s, "..")
  {
    hide IndexOfSub;
    forall k | 0 <= k <= |s|
      ensures !(".." <= s[k..])
    {
      assert k + 2 <= |s| ==> s[k..][0] == s[k] && s[k] in s;
    }
  }

  lemma UnknownIsHostName()
    ensures IsHostName("unknown")
  {
    hide Contains;
    NoDotNoDots("unknown");
  }

  lemma LowerHasNoCapitals(s: string)
    ensures forall c :: c in Map(Lower, s) ==> !('A' <= c <= 'Z')
  {
    forall c | c in Map(Lower, s) ensures !('A' <= c <= 'Z') {
      var i :| 0 <= i < |s| && c == Map(Lower, s)[i];
      assert c == Lower(s[i]);
    }
  }

  lemma {:induction false} SanitizedIsHostName(host: string)
    ensures IsHostName(SanitizeHost(host))
  {
    hide Contains, Trim, TrimSpace, ReplaceUnsafe, IsEdge, IsSpace;
    UnknownIsHostName();
    LowerHasNoCapitals(TrimSpace(host));
    var safe := ReplaceUnsafe(Map(Lower, TrimSpace(host)));
    TrimKeeps(safe, IsEdge);
    var h := Trim(safe, IsEdge);
    assert forall c :: c in h ==> IsSafe(c) && !('A' <= c <= 'Z');
  }

  lemma {:induction false} ReplaceKeepsSafe(s: string)
    requires forall c :: c in s ==> IsSafe(c)
    ensures ReplaceUnsafe(s) == s
  {
    if s != "" {
      ReplaceKeepsSafe(s[1..]);
      assert [s[0]] + s[1..] == s;
    }
  }

  lemma SafeIsNotSpace(h: string)
    requires h != "" && forall c :: c in h ==> IsSafe(c)
    ensures Trimmed(h, IsSpace)
  {
    assert h[0] in h && h[|h| - 1] in h;
    assert forall c :: IsSafe(c) ==> !IsSpace(c);
  }

  lemma LowerStays(h: string)
    requires forall c :: c in h ==> IsSafe(c) && !('A' <= c <= 'Z')
    ensures Map(Lower, h) == h
  {
    assert forall i :: 0 <= i < |h| ==> h[i] in h && Lower(h[i]) == h[i];
  }

  /** The file names of hosts are exactly the names that sanitizing leaves alone. */
  lemma {:induction false} SanitizedNames(h: string)
    ensures SanitizeHost(h) == h <==> IsHostName(h)
  {
    hide Contains, Trim, ReplaceUnsafe, IsSpace;
    SanitizedIsHostName(h);
    if IsHostName(h) {
      SafeIsNotSpace(h);
      TrimTrimmed(h, IsSpace);
      LowerStays(h);
      ReplaceKeepsSafe(h);
      TrimTrimmed(h, IsEdge);
    }
  }

  lemma {:induction false} SanitizeTwice(host: string)
    ensures SanitizeHost(SanitizeHost(host)) == SanitizeHost(host)
  {
    hide SanitizeHost, IsHostName;
    SanitizedIsHostName(host);
    SanitizedNames(SanitizeHost(host));
  }

  lemma ReplaceStar(s: string)
    ensures ReplaceUnsafe("*." + s) == "_." + ReplaceUnsafe(s)
  {
    assert ("*." + s)[1..] == "." + s;
    assert ("." + s)[1..] == s;
    assert ReplaceUnsafe("." + s) == "." + ReplaceUnsafe(s);
    assert "_" + ("." + ReplaceUnsafe(s)) == "_." + ReplaceUnsafe(s);
  }

  lemma TrimLeftFirst(c: char, s: string, cut: char -> bool)
    requires cut(c)
    ensures TrimLeft([c] + s, cut) == TrimLeft(s, cut)
  {
    assert ([c] + s)[1..] == s;
  }

  lemma EdgesFall(s: string)
    ensures Trim("_." + s, IsEdge) == Trim(s, IsEdge)
  {
    hide TrimRight, TrimLeft;
    TrimLeftFirst('.', s, IsEdge);
    TrimLeftFirst('_', "." + s, IsEdge);
    assert "_" + ("." + s) == "_." + s;
  }

  /** A wildcard host and the host itself share one pair of files. */
  lemma {:induction false} WildcardSharesFiles(h: string)
    requires h != "" && Trimmed(h, IsSpace)
    ensures SanitizeHost("*." + h) == SanitizeHost(h)
  {
    hide Contains, Trim, ReplaceUnsafe;
    TrimTrimmed(h, IsSpace);
    TrimTrimmed("*." + h, IsSpace);
    assert Map(Lower, "*." + h) == "*." + Map(Lower, h);
    ReplaceStar(Map(Lower, h));
    EdgesFall(ReplaceUnsafe(Map(Lower, h)));
  }

  /** Hosts whose names are clean already share files only when they are the same. */
  lemma {:induction false} HostNamesDoNotShare(a: string, b: string)
    requires IsHostName(a) && IsHostName(b)
    ensures SanitizeHost(a) == SanitizeHost(b) <==> a == b
  {
    hide SanitizeHost, IsHostName;
    SanitizedNames(a);
    SanitizedNames(b);
  }

  /** So a host shares its files with some other clean name exactly when its own is not clean. */
  lemma SharesFilesExactly(a: string)
    ensures (exists b :: b != a && IsHostName(b) && SanitizeHost(b) == SanitizeHost(a)) <==> !IsHostName(a)
  {
    hide SanitizeHost, IsHostName;
    if IsHostName(a) {
      forall b | IsHostName(b) && SanitizeHost(b) == SanitizeHost(a) ensures b == a {
        HostNamesDoNotShare(a, b);
      }
    } else {
      SanitizedNames(a);
      SanitizedIsHostName(a);
      SanitizeTwice(a);
      assert SanitizeHost(a) != a && IsHostName(SanitizeHost(a));
    }
  }

  // ---- The directory ----

  datatype Entry = File(text: string) | Folder(empty: bool)

  type Dir = map<string, Entry>

  /** Both directories, and the generated list once it exists; `None` is an absent directory. */
  datatype Disk = Disk(certs: Option<Dir>, yml: Option<string>)

  function FilesOf(certs: Option<Dir>): Dir {
    if certs.Some? then certs.value else map[]
  }

  datatype Error = HostRequired | NotACertificate | NotAKey | IsADirectory

  function Named(base: string, suffix: string): (name: string)
    ensures HasSuffix(name, suffix) && Strip(name, suffix) == base
  {
    base + suffix
  }

  /** `strings.TrimSuffix` of a name that has the suffix. */
  function Strip(name: string, suffix: string): string
    requires HasSuffix(name, suffix)
  {
    name[..|name| - |suffix|]
  }

  function Written(d: Dir, name: string, text: string): Option<Dir> {
    if name in d && d[name].Folder? then None else Some(d[name := File(text)])
  }

  /** `os.Remove` with its error ignored: an empty directory goes too. */
  function Removed(d: Dir, name: string): Dir {
    if name in d && (d[name].File? || d[name].empty) then d - {name} else d
  }

  predicate IsFile(d: Dir, name: string) {
    name in d && d[name].File?
  }

  /** Hosts with both files. */
  ghost predicate Paired(d: Dir, base: string) {
    IsFile(d, Named(base, ".crt")) && IsFile(d, Named(base, ".key"))
  }

  ghost predicate IsHostList(certs: Option<Dir>, hosts: seq<string>) {
    && Increasing(hosts)
    && forall b :: b in hosts <==> certs.Some? && Paired(certs.value, b)
  }

  // ---- The generated list ----

  const MOUNT := "/certs"
  const CERT_LINE := "    - certFile: "
  const KEY_LINE := "      keyFile: "

  function PathOf(host: string, suffix: string): string {
    MOUNT + "/" + Named(host, suffix)
  }

  function ContainerPath(host: string, suffix: string): string {
    PathOf(SanitizeHost(host), suffix)
  }

  function ContainerCert(host: string): string { ContainerPath(host, ".crt") }

  function ContainerKey(host: string): string { ContainerPath(host, ".key") }

  function CertLine(h: string): string { CERT_LINE + ContainerCert(h) }

  function KeyLine(h: string): string { KEY_LINE + ContainerKey(h) }

  function Item(h: string): seq<string> {
    [CertLine(h), KeyLine(h)]
  }

  /** The lines of each host, in order. */
  function LinesOf(hosts: seq<string>, lines: string -> seq<string>): seq<string> {
    if hosts == [] then []
    else LinesOf(hosts[..|hosts| - 1], lines) + lines(hosts[|hosts| - 1])
  }

  function Items(hosts: seq<string>): seq<string> {
    LinesOf(hosts, Item)
  }

  // In three pieces: the verifier does not look into a literal as long as the whole.
  const TITLE := "# Generated by " + "selfhosted-agent" + " \U{2014} do not edit."
  const HEADER := [TITLE, "tls:"]

  function YamlLines(hosts: seq<string>): seq<string> {
    HEADER + if hosts == [] then ["  certificates: []"] else ["  certificates:"] + Items(hosts)
  }

  function Unlines(lines: seq<string>): string {
    if lines == [] then "" else lines[0] + "\n" + Unlines(lines[1..])
  }

  lemma {:induction false} UnlinesConcat(a: seq<string>, b: seq<string>)
    ensures Unlines(a + b) == Unlines(a) + Unlines(b)
  {
    if a == [] {
      assert a + b == b;
    } else {
      assert (a + b)[1..] == a[1..] + b;
      UnlinesConcat(a[1..], b);
    }
  }

  lemma UnlinesMore(lines: seq<string>, line: string)
    ensures Unlines(lines + [line]) == Unlines(lines) + (line + "\n")
  {
    UnlinesConcat(lines, [line]);
    assert [line][1..] == [];
  }

  lemma UnlinesHeader()
    ensures Unlines(HEADER) == TITLE + "\n" + "tls:\n"
  {
    hide Unlines;
    assert HEADER == [] + [TITLE] + ["tls:"];
    UnlinesNone();
    UnlinesMore([], TITLE);
    UnlinesMore([] + [TITLE], "tls:");
  }

  lemma UnlinesNone()
    ensures Unlines([]) == ""
  {
  }

  lemma UnlinesItem(lines: seq<string>, h: string)
    ensures Unlines(lines + [CertLine(h), KeyLine(h)]) == Unlines(lines) + CertLine(h) + "\n" + KeyLine(h) + "\n"
  {
    hide Unlines, CertLine, KeyLine;
    assert lines + [CertLine(h), KeyLine(h)] == lines + [CertLine(h)] + [KeyLine(h)];
    UnlinesMore(lines, CertLine(h));
    UnlinesMore(lines + [CertLine(h)], KeyLine(h));
  }

  // ---- The manager ----

  predicate LooksValid(host: string, cert: string, key: string) {
    && TrimSpace(host) != ""
    && Contains(cert, "BEGIN CERTIFICATE")
    && Contains(key, "BEGIN") && Contains(key, "PRIVATE KEY")
  }

  class Manager {
    var certs: Option<Dir>
    var yml: Option<string>

    ghost function OnDisk(): Disk
      reads this
    {
      Disk(certs, yml)
    }

    constructor ()
      ensures OnDisk() == Disk(None, None)
    {
      certs, yml := None, None;
    }

    method Put(host: string, certPem: string, keyPem: string) returns (error: Option<Error>)
      modifies this
      ensures IsPut(old(OnDisk()), OnDisk(), host, certPem, keyPem, error)
    {
      hide SanitizeHost, Contains, TrimSpace, YamlLines;
      if TrimSpace(host) == "" {
        return Some(HostRequired);
      }
      if !Contains(certPem, "BEGIN CERTIFICATE") {
        return Some(NotACertificate);
      }
      if !Contains(keyPem, "BEGIN") || !Contains(keyPem, "PRIVATE KEY") {
        return Some(NotAKey);
      }
      if certs.None? {
        certs := Some(map[]);
      }
      var withCert := Written(certs.value, Named(SanitizeHost(host), ".crt"), certPem);
      if withCert.None? {
        return Some(IsADirectory);
      }
      certs := withCert;
      var withKey := Written(certs.value, Named(SanitizeHost(host), ".key"), keyPem);
      if withKey.None? {
        return Some(IsADirectory);
      }
      certs := withKey;
      RewriteDynamic();
      return None;
    }

    method Delete(host: string)
      modifies this
      ensures IsDelete(old(OnDisk()), OnDisk(), host)
    {
      hide SanitizeHost, YamlLines;
      if certs.Some? {
        certs := Some(Removed(certs.value, Named(SanitizeHost(host), ".crt")));
        certs := Some(Removed(certs.value, Named(SanitizeHost(host), ".key")));
      }
      RewriteDynamic();
    }

    method ListHosts() returns (hosts: seq<string>)
      ensures IsHostList(certs, hosts)
    {
      if certs.None? {
        return [];
      }
      var certNames, keyNames := Bases(certs.value);
      hosts := [];
      var left := certNames;
      while left != {}
        invariant left <= certNames
        invariant NoDuplicates(hosts)
        invariant forall b :: b in hosts <==> b in certNames - left && b in keyNames
      {
        var b :| b in left;
        left := left - {b};
        if b in keyNames {
          hosts := hosts + [b];
        }
      }
      hosts := Sorted(hosts);
    }

    method RewriteDynamic()
      modifies this`yml
      ensures IsRewrite(certs, yml)
    {
      hide IsHostList, YamlLines;
      var hosts := ListHosts();
      var text := Generate(hosts);
      yml := Some(text);
    }
  }

  /** The names with a certificate file and those with a key file. */
  method Bases(d: Dir) returns (certNames: set<string>, keyNames: set<string>)
    ensures forall b :: b in certNames <==> IsFile(d, Named(b, ".crt"))
    ensures forall b :: b in keyNames <==> IsFile(d, Named(b, ".key"))
  {
    certNames, keyNames := {}, {};
    var left := d.Keys;
    while left != {}
      invariant left <= d.Keys
      invariant forall b :: b in certNames <==> IsFile(d, Named(b, ".crt")) && Named(b, ".crt") !in left
      invariant forall b :: b in keyNames <==> IsFile(d, Named(b, ".key")) && Named(b, ".key") !in left
    {
      var name :| name in left;
      left := left - {name};
      if d[name].Folder? {
        continue;
      }
      if HasSuffix(name, ".crt") {
        certNames := certNames + {Strip(name, ".crt")};
        assert name == Named(Strip(name, ".crt"), ".crt");
        assert !HasSuffix(name, ".key") by { assert name[|name| - 1] == ".crt"[3]; }
      } else if HasSuffix(name, ".key") {
        keyNames := keyNames + {Strip(name, ".key")};
        assert name == Named(Strip(name, ".key"), ".key");
      }
    }
  }

  method Generate(hosts: seq<string>) returns (b: string)
    ensures b == Unlines(YamlLines(hosts))
  {
    hide Unlines, CertLine, KeyLine;
    b := TITLE + "\n" + "tls:\n";
    UnlinesHeader();
    if |hosts| == 0 {
      b := b + "  certificates: []\n";
      UnlinesMore(HEADER, "  certificates: []");
    } else {
      b := b + "  certificates:\n";
      UnlinesMore(HEADER, "  certificates:");
      ghost var start := HEADER + ["  certificates:"];
      assert start + Items([]) == start;
      for i := 0 to |hosts|
        invariant b == Unlines(start + Items(hosts[..i]))
      {
        var h := hosts[i];
        b := b + CertLine(h) + "\n" + KeyLine(h) + "\n";
        assert hosts[..i + 1][..i] == hosts[..i];
        UnlinesItem(start + Items(hosts[..i]), h);
        assert start + Items(hosts[..i + 1]) == start + Items(hosts[..i]) + [CertLine(h), KeyLine(h)];
      }
      assert hosts[..|hosts|] == hosts;
      assert start + Items(hosts) == YamlLines(hosts);
    }
  }

  ghost predicate IsRewrite(certs: Option<Dir>, yml: Option<string>) {
    exists hosts :: IsHostList(certs, hosts) && yml == Some(Unlines(YamlLines(hosts)))
  }

  /** What `Put` may turn one disk into, and its error. */
  ghost predicate IsPut(d: Disk, d': Disk, host: string, cert: string, key: string, error: Option<Error>) {
    var before := FilesOf(d.certs);
    var withCert := Written(before, Named(SanitizeHost(host), ".crt"), cert);
    if TrimSpace(host) == "" then error == Some(HostRequired) && d' == d
    else if !Contains(cert, "BEGIN CERTIFICATE") then error == Some(NotACertificate) && d' == d
    else if !(Contains(key, "BEGIN") && Contains(key, "PRIVATE KEY")) then error == Some(NotAKey) && d' == d
    else if withCert.None? then error == Some(IsADirectory) && d' == Disk(Some(before), d.yml)
    else
      var withKey := Written(withCert.value, Named(SanitizeHost(host), ".key"), key);
      if withKey.None? then error == Some(IsADirectory) && d' == Disk(withCert, d.yml)
      else error == None && d'.certs == withKey && IsRewrite(d'.certs, d'.yml)
  }

  ghost predicate IsDelete(d: Disk, d': Disk, host: string) {
    && d'.certs == (if d.certs.None? then None
                    else Some(Removed(Removed(d.certs.value, Named(SanitizeHost(host), ".crt")),
                                      Named(SanitizeHost(host), ".key"))))
    && IsRewrite(d'.certs, d'.yml)
  }

  // ---- Reading the list back ----

  /** What follows `prefix` on each line that starts with it. */
  function Picked(lines: seq<string>, prefix: string): seq<string> {
    if lines == [] then []
    else
      var line := lines[0];
      (if HasPrefix(line, prefix) then [line[|prefix|..]] else []) + Picked(lines[1..], prefix)
  }

  function Listed(yml: string, prefix: string): seq<string> {
    Picked(Split(yml, '\n'), prefix)
  }

  lemma {:induction false} PickedConcat(a: seq<string>, b: seq<string>, prefix: string)
    ensures Picked(a + b, prefix) == Picked(a, prefix) + Picked(b, prefix)
  {
    hide HasPrefix;
    if a == [] {
      assert a + b == b;
    } else {
      assert (a + b)[1..] == a[1..] + b;
      PickedConcat(a[1..], b, prefix);
    }
  }

  lemma PickedNone(line: string, prefix: string)
    requires !HasPrefix(line, prefix)
    ensures Picked([line], prefix) == []
  {
  }

  lemma PickedOne(rest: string, prefix: string)
    ensures Picked([prefix + rest], prefix) == [rest]
  {
    assert (prefix + rest)[|prefix|..] == rest;
  }

  lemma {:induction false} SplitUnlines(lines: seq<string>)
    requires forall l :: l in lines ==> '\n' !in l
    ensures Split(Unlines(lines), '\n') == lines + [""]
  {
    if lines != [] {
      SplitUnlines(lines[1..]);
      SplitFirst(lines[0], Unlines(lines[1..]), '\n');
      assert lines[0] + ['\n'] + Unlines(lines[1..]) == Unlines(lines);
      assert lines == [lines[0]] + lines[1..];
    }
  }

  lemma {:induction false} LinesOfAreLines(hosts: seq<string>, lines: string -> seq<string>)
    requires forall h, l :: l in lines(h) ==> '\n' !in l
    ensures forall l :: l in LinesOf(hosts, lines) ==> '\n' !in l
  {
    if hosts != [] {
      LinesOfAreLines(hosts[..|hosts| - 1], lines);
    }
  }

  lemma ItemIsLines(h: string)
    ensures forall l :: l in Item(h) ==> '\n' !in l
  {
    SanitizedIsHostName(h);
    hide SanitizeHost, Contains;
  }

  lemma ItemPicked(h: string)
    ensures Picked(Item(h), CERT_LINE) == [ContainerCert(h)]
    ensures Picked(Item(h), KEY_LINE) == [ContainerKey(h)]
  {
    hide ContainerCert, ContainerKey, Picked;
    assert [CertLine(h), KeyLine(h)] == [CertLine(h)] + [KeyLine(h)];
    PickedConcat([CertLine(h)], [KeyLine(h)], CERT_LINE);
    PickedConcat([CertLine(h)], [KeyLine(h)], KEY_LINE);
    PickedOne(ContainerCert(h), CERT_LINE);
    PickedOne(ContainerKey(h), KEY_LINE);
    assert CertLine(h)[4] == '-' && KeyLine(h)[4] == ' ';
    PickedNone(CertLine(h), KEY_LINE);
    PickedNone(KeyLine(h), CERT_LINE);
  }

  lemma {:induction false} LinesOfPicked(hosts: seq<string>, lines: string -> seq<string>, prefix: string,
                                         path: string -> string)
    requires forall h :: Picked(lines(h), prefix) == [path(h)]
    ensures Picked(LinesOf(hosts, lines), prefix) == Map(path, hosts)
  {
    hide Picked;
    if hosts == [] {
      NonePicked(prefix);
    } else {
      var n := |hosts| - 1;
      LinesOfPicked(hosts[..n], lines, prefix, path);
      PickedConcat(LinesOf(hosts[..n], lines), lines(hosts[n]), prefix);
      assert hosts == hosts[..n] + [hosts[n]];
      MapConcat(path, hosts[..n], [hosts[n]]);
      assert Map(path, [hosts[n]]) == [path(hosts[n])];
    }
  }

  lemma NonePicked(prefix: string)
    ensures Picked([], prefix) == []
  {
  }

  /** Lines that list no file: the header, the count of items and the end of the text. */
  lemma PlainLines(prefix: string)
    requires prefix == CERT_LINE || prefix == KEY_LINE
    ensures Picked(HEADER + ["  certificates: []"], prefix) == []
    ensures Picked(HEADER + ["  certificates:"], prefix) == []
    ensures Picked([""], prefix) == []
  {
    hide Picked;
    assert CERT_LINE[0] == ' ' && KEY_LINE[0] == ' ';
    assert CERT_LINE[2] == ' ' && KEY_LINE[2] == ' ';
    assert TITLE[0] == '#';
    assert HEADER == [TITLE] + ["tls:"];
    PickedConcat([TITLE], ["tls:"], prefix);
    PickedConcat(HEADER, ["  certificates: []"], prefix);
    PickedConcat(HEADER, ["  certificates:"], prefix);
    PickedNone(TITLE, prefix);
    PickedNone("tls:", prefix);
    PickedNone("  certificates: []", prefix);
    PickedNone("  certificates:", prefix);
    PickedNone("", prefix);
  }

  lemma {:induction false} LinesPicked(header: seq<string>, items: seq<string>, prefix: string)
    requires Picked(header, prefix) == [] && Picked([""], prefix) == []
    ensures Picked(header + items + [""], prefix) == Picked(items, prefix)
  {
    hide Picked;
    PickedConcat(header, items + [""], prefix);
    PickedConcat(items, [""], prefix);
    assert header + (items + [""]) == header + items + [""];
  }

  /** The generated text lists exactly the paths of the given hosts, in their order. */
  lemma GeneratedListsHosts(hosts: seq<string>)
    ensures Listed(Unlines(YamlLines(hosts)), CERT_LINE) == Map(ContainerCert, hosts)
    ensures Listed(Unlines(YamlLines(hosts)), KEY_LINE) == Map(ContainerKey, hosts)
  {
    hide ContainerCert, ContainerKey, Item, LinesOf, Picked, Unlines, Split;
    forall h
      ensures forall l :: l in Item(h) ==> '\n' !in l
      ensures Picked(Item(h), CERT_LINE) == [ContainerCert(h)] && Picked(Item(h), KEY_LINE) == [ContainerKey(h)]
    {
      ItemIsLines(h);
      ItemPicked(h);
    }
    LinesOfAreLines(hosts, Item);
    PlainTextsAreLines();
    SplitUnlines(YamlLines(hosts));
    LinesOfPicked(hosts, Item, CERT_LINE, ContainerCert);
    LinesOfPicked(hosts, Item, KEY_LINE, ContainerKey);
    PlainLines(CERT_LINE);
    PlainLines(KEY_LINE);
    var header := HEADER + if hosts == [] then ["  certificates: []"] else ["  certificates:"];
    assert YamlLines(hosts) == header + Items(hosts) by {
      NoItems();
    }
    hide YamlLines;
    LinesPicked(header, Items(hosts), CERT_LINE);
    LinesPicked(header, Items(hosts), KEY_LINE);
  }

  lemma NoItems()
    ensures Items([]) == []
  {
  }

  lemma PlainTextsAreLines()
    ensures '\n' !in TITLE && '\n' !in "tls:" && '\n' !in "  certificates:" && '\n' !in "  certificates: []"
  {
    assert '\n' !in TITLE;
    assert '\n' !in "tls:";
    assert '\n' !in "  certificates:";
    assert '\n' !in "  certificates: []";
  }

  // ---- Runs of the two commands ----

  datatype Command = Put(host: string, cert: string, key: string, error: Option<Error>) | Delete(host: string)

  ghost predicate Runs(d: Disk, d': Disk, c: Command) {
    match c
    case Put(host, cert, key, error) => IsPut(d, d', host, cert, key, error)
    case Delete(host) => IsDelete(d, d', host)
  }

  datatype Pair = Pair(cert: string, key: string)

  /** The simple form: one pair per sanitized host. */
  function Reference(ref: map<string, Pair>, c: Command): map<string, Pair> {
    match c
    case Put(host, cert, key, _) =>
      if LooksValid(host, cert, key) then ref[SanitizeHost(host) := Pair(cert, key)] else ref
    case Delete(host) => ref - {SanitizeHost(host)}
  }

  function ReferenceAll(commands: seq<Command>): map<string, Pair> {
    if commands == [] then map[] else Reference(ReferenceAll(commands[..|commands| - 1]), commands[|commands| - 1])
  }

  ghost predicate IsRun(run: seq<Disk>, commands: seq<Command>) {
    && |run| == |commands| + 1 && run[0] == Disk(None, None)
    && forall i :: 0 <= i < |commands| ==> Runs(run[i], run[i + 1], commands[i])
  }

  /** The entry a file name has when the directory holds the two files of each pair. */
  function Expected(ref: map<string, Pair>, name: string): Option<Entry> {
    if HasSuffix(name, ".crt") && Strip(name, ".crt") in ref then Some(File(ref[Strip(name, ".crt")].cert))
    else if HasSuffix(name, ".key") && Strip(name, ".key") in ref then Some(File(ref[Strip(name, ".key")].key))
    else None
  }

  ghost predicate Holds(d: Dir, ref: map<string, Pair>) {
    forall name :: (if name in d then Some(d[name]) else None) == Expected(ref, name)
  }

  ghost predicate Agrees(d: Disk, ref: map<string, Pair>) {
    && Holds(FilesOf(d.certs), ref)
    && (forall b :: b in ref ==> IsHostName(b))
    && (if d.yml.Some? then IsRewrite(d.certs, d.yml) else ref == map[])
  }

  lemma SuffixesApart(name: string)
    ensures !(HasSuffix(name, ".crt") && HasSuffix(name, ".key"))
  {
    assert HasSuffix(name, ".crt") ==> name[|name| - 1] == ".crt"[3];
    assert HasSuffix(name, ".key") ==> name[|name| - 1] == ".key"[3];
  }

  lemma StripNamed(name: string, suffix: string, b: string)
    ensures name == Named(b, suffix) <==> HasSuffix(name, suffix) && Strip(name, suffix) == b
  {
  }

  lemma ExpectedNames(ref: map<string, Pair>, b: string)
    ensures Expected(ref, Named(b, ".crt")) == if b in ref then Some(File(ref[b].cert)) else None
    ensures Expected(ref, Named(b, ".key")) == if b in ref then Some(File(ref[b].key)) else None
    ensures Named(b, ".crt") != Named(b, ".key")
  {
    hide Named, HasSuffix, Strip;
    SuffixesApart(Named(b, ".crt"));
    SuffixesApart(Named(b, ".key"));
  }

  /** Two reference maps that differ at one host expect the same of all other files. */
  lemma ExpectedElsewhere(ref: map<string, Pair>, ref': map<string, Pair>, b: string, name: string)
    requires forall x :: x != b ==> (x in ref <==> x in ref') && (x in ref ==> ref[x] == ref'[x])
    requires name != Named(b, ".crt") && name != Named(b, ".key")
    ensures Expected(ref, name) == Expected(ref', name)
  {
    hide Named, HasSuffix, Strip;
    StripNamed(name, ".crt", b);
    StripNamed(name, ".key", b);
  }

  lemma WritingHolds(d: Dir, ref: map<string, Pair>, b: string, cert: string, key: string)
    requires Holds(d, ref)
    ensures var d1 := Written(d, Named(b, ".crt"), cert);
            && d1.Some?
            && var d2 := Written(d1.value, Named(b, ".key"), key);
               d2.Some? && Holds(d2.value, ref[b := Pair(cert, key)])
  {
    hide Named, Expected;
    var ref' := ref[b := Pair(cert, key)];
    ExpectedNames(ref, b);
    ExpectedNames(ref', b);
    var c, k := Named(b, ".crt"), Named(b, ".key");
    assert c in d ==> Some(d[c]) == Expected(ref, c);
    assert k in d ==> Some(d[k]) == Expected(ref, k);
    var d' := d[c := File(cert)][k := File(key)];
    forall name ensures (if name in d' then Some(d'[name]) else None) == Expected(ref', name) {
      if name != c && name != k {
        ExpectedElsewhere(ref, ref', b, name);
      }
    }
  }

  lemma RemovingHolds(d: Dir, ref: map<string, Pair>, b: string)
    requires Holds(d, ref)
    ensures Holds(Removed(Removed(d, Named(b, ".crt")), Named(b, ".key")), ref - {b})
  {
    hide Named, Expected;
    var ref' := ref - {b};
    ExpectedNames(ref, b);
    ExpectedNames(ref', b);
    var c, k := Named(b, ".crt"), Named(b, ".key");
    assert c in d ==> Some(d[c]) == Expected(ref, c);
    assert k in d ==> Some(d[k]) == Expected(ref, k);
    var d' := Removed(Removed(d, c), k);
    forall name ensures (if name in d' then Some(d'[name]) else None) == Expected(ref', name) {
      if name != c && name != k {
        ExpectedElsewhere(ref, ref', b, name);
      }
    }
  }

  lemma {:induction false} PutAgrees(d: Disk, d': Disk, c: Command, ref: map<string, Pair>)
    requires Agrees(d, ref) && c.Put? && Runs(d, d', c)
    ensures Agrees(d', Reference(ref, c))
    ensures c.error.None? <==> LooksValid(c.host, c.cert, c.key)
  {
    hide SanitizeHost, IsHostName, Contains, TrimSpace, IsHostList, YamlLines, Unlines, Named, Written, Holds;
    SanitizedIsHostName(c.host);
    WritingHolds(FilesOf(d.certs), ref, SanitizeHost(c.host), c.cert, c.key);
  }

  lemma {:induction false} DeleteAgrees(d: Disk, d': Disk, c: Command, ref: map<string, Pair>)
    requires Agrees(d, ref) && c.Delete? && Runs(d, d', c)
    ensures Agrees(d', Reference(ref, c))
  {
    hide SanitizeHost, IsHostName, IsHostList, YamlLines, Unlines, Named, Holds;
    var before, b := FilesOf(d.certs), SanitizeHost(c.host);
    RemovingHolds(before, ref, b);
    assert Removed(map[], Named(b, ".crt")) == map[];
    assert Removed(map[], Named(b, ".key")) == map[];
  }

  lemma {:induction false} RunAgrees(run: seq<Disk>, commands: seq<Command>)
    requires IsRun(run, commands)
    ensures Agrees(run[|commands|], ReferenceAll(commands))
  {
    if commands != [] {
      var n := |commands| - 1;
      RunAgrees(run[..n + 1], commands[..n]);
      match commands[n]
      case Put(_, _, _, _) => PutAgrees(run[n], run[n + 1], commands[n], ReferenceAll(commands[..n]));
      case Delete(_) => DeleteAgrees(run[n], run[n + 1], commands[n], ReferenceAll(commands[..n]));
    }
  }

  lemma PairedIsReferenced(d: Dir, ref: map<string, Pair>, b: string)
    requires Holds(d, ref)
    ensures Paired(d, b) <==> b in ref
    ensures b in ref ==> d[Named(b, ".crt")] == File(ref[b].cert) && d[Named(b, ".key")] == File(ref[b].key)
  {
    hide Named, Expected;
    ExpectedNames(ref, b);
    var c, k := Named(b, ".crt"), Named(b, ".key");
    assert (if c in d then Some(d[c]) else None) == Expected(ref, c);
    assert (if k in d then Some(d[k]) else None) == Expected(ref, k);
  }

  lemma {:induction false} PathsNameFiles(h: string)
    requires IsHostName(h)
    ensures ContainerCert(h) == PathOf(h, ".crt") && ContainerKey(h) == PathOf(h, ".key")
  {
    hide SanitizeHost, IsHostName;
    SanitizedNames(h);
  }

  /** `hosts` are the hosts of `ref` in order, `yml` lists their files in that order, and the files
      hold their pairs. */
  ghost predicate Indexes(yml: string, files: Dir, ref: map<string, Pair>, hosts: seq<string>) {
    && Increasing(hosts) && (forall h :: h in hosts <==> h in ref)
    && |Listed(yml, CERT_LINE)| == |Listed(yml, KEY_LINE)| == |hosts|
    && (forall i :: 0 <= i < |hosts| ==>
          && Listed(yml, CERT_LINE)[i] == PathOf(hosts[i], ".crt")
          && Listed(yml, KEY_LINE)[i] == PathOf(hosts[i], ".key"))
    && (forall h :: h in hosts ==>
          && Named(h, ".crt") in files && files[Named(h, ".crt")] == File(ref[h].cert)
          && Named(h, ".key") in files && files[Named(h, ".key")] == File(ref[h].key))
  }

  /** There is a list only once a command has succeeded, and then it indexes the files. */
  ghost predicate Indexed(d: Disk, ref: map<string, Pair>) {
    if d.yml.None? then ref == map[]
    else exists hosts :: Indexes(d.yml.value, FilesOf(d.certs), ref, hosts)
  }

  lemma AgreesIsIndexed(d: Disk, ref: map<string, Pair>)
    requires Agrees(d, ref)
    ensures Indexed(d, ref)
  {
    hide Holds, IsHostName, IsHostList, Indexes, YamlLines, Unlines;
    if d.yml.Some? {
      var hosts :| IsHostList(d.certs, hosts) && d.yml == Some(Unlines(YamlLines(hosts)));
      HostListIndexes(d, ref, hosts);
    }
  }

  lemma {:induction false} HostListIndexes(d: Disk, ref: map<string, Pair>, hosts: seq<string>)
    requires Agrees(d, ref) && IsHostList(d.certs, hosts) && d.yml == Some(Unlines(YamlLines(hosts)))
    ensures Indexes(d.yml.value, FilesOf(d.certs), ref, hosts)
  {
    hide Named, IsHostName, ContainerCert, ContainerKey, PathOf, Listed, YamlLines, Unlines, Less;
    var files := FilesOf(d.certs);
    GeneratedListsHosts(hosts);
    forall h ensures h in hosts <==> h in ref {
      PairedIsReferenced(files, ref, h);
      assert d.certs.None? ==> !Paired(files, h);
    }
    forall h | h in hosts
      ensures Named(h, ".crt") in files && files[Named(h, ".crt")] == File(ref[h].cert)
      ensures Named(h, ".key") in files && files[Named(h, ".key")] == File(ref[h].key)
      ensures ContainerCert(h) == PathOf(h, ".crt") && ContainerKey(h) == PathOf(h, ".key")
    {
      PairedIsReferenced(files, ref, h);
      PathsNameFiles(h);
    }
  }

  /** After any sequence of commands from nothing, the list names, sorted and without repetition,
      exactly the hosts of the reference map, by the files that hold their pairs. */
  lemma {:induction false} ListMatchesFiles(run: seq<Disk>, commands: seq<Command>)
    requires IsRun(run, commands)
    ensures Indexed(run[|commands|], ReferenceAll(commands))
  {
    hide Agrees, Indexed, ReferenceAll;
    RunAgrees(run, commands);
    AgreesIsIndexed(run[|commands|], ReferenceAll(commands));
  }

  // ---- What is accepted ----

  /** A pair is accepted exactly when the host is not blank and the texts hold the PEM words. */
  lemma AcceptsExactly(host: string, cert: string, key: string)
    ensures LooksValid(host, cert, key) <==>
              && (exists c :: c in host && !IsSpace(c))
              && (exists a, b :: cert == a + "BEGIN CERTIFICATE" + b)
              && (exists a, b :: key == a + "BEGIN" + b) && (exists a, b :: key == a + "PRIVATE KEY" + b)
  {
    hide Contains, IsSpace, TrimSpace;
    BlankExactly(host);
    ContainsExactly(cert, "BEGIN CERTIFICATE");
    ContainsExactly(key, "BEGIN");
    ContainsExactly(key, "PRIVATE KEY");
  }

  /** Why a pair is refused, the first reason first; otherwise only a directory in the way stops it. */
  lemma RefusalsExactly(d: Disk, d': Disk, host: string, cert: string, key: string, error: Option<Error>)
    requires IsPut(d, d', host, cert, key, error)
    ensures error == Some(HostRequired) <==> forall c :: c in host ==> IsSpace(c)
    ensures (exists c :: c in host && !IsSpace(c)) ==>
              (error == Some(NotACertificate) <==> !exists a, b :: cert == a + "BEGIN CERTIFICATE" + b)
    ensures (exists c :: c in host && !IsSpace(c)) && (exists a, b :: cert == a + "BEGIN CERTIFICATE" + b) ==>
              (error == Some(NotAKey) <==>
                 !((exists a, b :: key == a + "BEGIN" + b) && (exists a, b :: key == a + "PRIVATE KEY" + b)))
    ensures error in {Some(HostRequired), Some(NotACertificate), Some(NotAKey)} ==> d' == d
    ensures error in {None, Some(IsADirectory)} <==> LooksValid(host, cert, key)
  {
    hide Contains, IsSpace, TrimSpace, SanitizeHost, IsRewrite, Named;
    BlankExactly(host);
    ContainsExactly(cert, "BEGIN CERTIFICATE");
    ContainsExactly(key, "BEGIN");
    ContainsExactly(key, "PRIVATE KEY");
  }

  lemma BlankExactly(host: string)
    ensures TrimSpace(host) == "" <==> forall c :: c in host ==> IsSpace(c)
  {
    hide IsSpace;
    if forall c :: c in host ==> IsSpace(c) {
      TrimOfNothing(host, IsSpace);
    } else {
      var c :| c in host && !IsSpace(c);
      TrimLeftHolds(host, IsSpace, c);
      TrimRightHolds(TrimLeft(host, IsSpace), IsSpace, c);
    }
  }

  lemma {:induction false} TrimLeftHolds(s: string, cut: char -> bool, c: char)
    requires c in s && !cut(c)
    ensures c in TrimLeft(s, cut)
  {
    if cut(s[0]) {
      assert s == [s[0]] + s[1..];
      TrimLeftHolds(s[1..], cut, c);
    }
  }

  lemma {:induction false} TrimRightHolds(s: string, cut: char -> bool, c: char)
    requires c in s && !cut(c)
    ensures c in TrimRight(s, cut)
  {
    var n := |s| - 1;
    if cut(s[n]) {
      assert s == s[..n] + [s[n]];
      TrimRightHolds(s[..n], cut, c);
    }
  }

  // ---- Files that reach the directory by another way ----

  lemma PathsAreInjective(a: string, b: string, suffix: string)
    requires PathOf(a, suffix) == PathOf(b, suffix)
    ensures a == b
  {
    assert PathOf(a, suffix) == (MOUNT + "/") + Named(a, suffix);
    assert PathOf(b, suffix) == (MOUNT + "/") + Named(b, suffix);
    assert PathOf(a, suffix)[|MOUNT| + 1..] == Named(a, suffix);
    assert PathOf(b, suffix)[|MOUNT| + 1..] == Named(b, suffix);
    assert Strip(Named(a, suffix), suffix) == a && Strip(Named(b, suffix), suffix) == b;
  }

  /** The list holds the certificate path of `h` when some host sanitizes to it. */
  lemma ListedPath(hosts: seq<string>, h: string)
    ensures PathOf(h, ".crt") in Listed(Unlines(YamlLines(hosts)), CERT_LINE) <==>
            exists g :: g in hosts && SanitizeHost(g) == h
  {
    hide SanitizeHost, Listed, Unlines, YamlLines, PathOf;
    GeneratedListsHosts(hosts);
    var listed := Map(ContainerCert, hosts);
    assert forall g :: ContainerCert(g) == PathOf(SanitizeHost(g), ".crt");
    if PathOf(h, ".crt") in listed {
      var i :| 0 <= i < |listed| && listed[i] == PathOf(h, ".crt");
      assert listed[i] == ContainerCert(hosts[i]);
      PathsAreInjective(SanitizeHost(hosts[i]), h, ".crt");
    }
    if g :| g in hosts && SanitizeHost(g) == h {
      var i :| 0 <= i < |hosts| && hosts[i] == g;
      assert listed[i] == ContainerCert(g);
    }
  }

  ghost predicate ListsEveryPair(hosts: seq<string>) {
    forall h :: h in hosts ==> PathOf(h, ".crt") in Listed(Unlines(YamlLines(hosts)), CERT_LINE)
  }

  ghost predicate NamesFile(d: Dir, path: string) {
    exists base :: path == PathOf(base, ".crt") && IsFile(d, Named(base, ".crt"))
  }

  /** Whatever the directory holds, the generated list has the path of every pair of files in it
      exactly when all pairs bear sanitized names, and lists only files that exist exactly when the
      sanitized name of every pair is a file's. */
  lemma ListedFilesExactly(d: Dir, hosts: seq<string>)
    requires IsHostList(Some(d), hosts)
    ensures ListsEveryPair(hosts) <==> forall h :: h in hosts ==> IsHostName(h)
    ensures (forall p :: p in Listed(Unlines(YamlLines(hosts)), CERT_LINE) ==> NamesFile(d, p)) <==>
            (forall h :: h in hosts ==> IsFile(d, Named(SanitizeHost(h), ".crt")))
  {
    hide SanitizeHost, IsHostName, Listed, Unlines, YamlLines, PathOf, Named, Less;
    EveryPairListed(hosts);
    OnlyFilesListed(d, hosts);
  }

  lemma {:induction false} EveryPairListed(hosts: seq<string>)
    ensures ListsEveryPair(hosts) <==> forall h :: h in hosts ==> IsHostName(h)
  {
    hide SanitizeHost, IsHostName, Listed, Unlines, YamlLines, PathOf;
    forall h | h in hosts
      ensures IsHostName(h) ==> PathOf(h, ".crt") in Listed(Unlines(YamlLines(hosts)), CERT_LINE)
      ensures PathOf(h, ".crt") in Listed(Unlines(YamlLines(hosts)), CERT_LINE) ==> IsHostName(h)
    {
      ListedPath(hosts, h);
      SanitizedNames(h);
      if g :| g in hosts && SanitizeHost(g) == h {
        SanitizedIsHostName(g);
      }
    }
  }

  lemma OnlyFilesListed(d: Dir, hosts: seq<string>)
    ensures (forall p :: p in Listed(Unlines(YamlLines(hosts)), CERT_LINE) ==> NamesFile(d, p)) <==>
            (forall h :: h in hosts ==> IsFile(d, Named(SanitizeHost(h), ".crt")))
  {
    hide SanitizeHost, Listed, Unlines, YamlLines, PathOf, Named, IsFile;
    GeneratedListsHosts(hosts);
    var listed := Map(ContainerCert, hosts);
    forall i | 0 <= i < |hosts|
      ensures NamesFile(d, listed[i]) <==> IsFile(d, Named(SanitizeHost(hosts[i]), ".crt"))
    {
      assert listed[i] == PathOf(SanitizeHost(hosts[i]), ".crt");
      if base :| listed[i] == PathOf(base, ".crt") && IsFile(d, Named(base, ".crt")) {
        PathsAreInjective(base, SanitizeHost(hosts[i]), ".crt");
      }
    }
  }

  /** A pair that is not in lower case is listed, under a name that is not there. */
  lemma {:induction false} ForeignFilesMislisted(cert: string, key: string, hosts: seq<string>)
    requires IsHostList(Some(map["A.crt" := File(cert), "A.key" := File(key)]), hosts)
    ensures "A" in hosts && !ListsEveryPair(hosts)
    ensures PathOf("a", ".crt") in Listed(Unlines(YamlLines(hosts)), CERT_LINE)
  {
    hide SanitizeHost, Listed, Unlines, YamlLines, PathOf, ListsEveryPair, Less;
    var d := map["A.crt" := File(cert), "A.key" := File(key)];
    assert Named("A", ".crt") == "A.crt" && Named("A", ".key") == "A.key";
    assert Paired(d, "A");
    CapitalFalls();
    ListedPath(hosts, "a");
    CapitalIsNoHostName();
    EveryPairListed(hosts);
  }

  lemma CapitalIsNoHostName()
    ensures !IsHostName("A")
  {
    hide Contains;
    assert 'A' in "A";
  }

  lemma {:induction false} CapitalFalls()
    ensures SanitizeHost("A") == "a"
  {
    hide Contains, Trim, ReplaceUnsafe, IsSpace;
    NoDotNoDots("a");
    SafeIsNotSpace("A");
    TrimTrimmed("A", IsSpace);
    assert Map(Lower, "A") == "a";
    ReplaceKeepsSafe("a");
    TrimTrimmed("a", IsEdge);
  }
}
