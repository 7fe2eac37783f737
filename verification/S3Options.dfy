/** The mount options of an S3 bucket (mount/s3.go): a list with commas, written and read. */
module S3Options {
  import opened Text

  /** In Build the endpoint is a URL that normalizeS3Endpoint has put in order, or empty. */
  datatype Config = Config(endpoint: string, region: string, pathStyle: bool)

  function Parts(cfg: Config, passwd: string): seq<string> {
    ["_netdev", "allow_other", "passwd_file=" + passwd] +
    (if cfg.endpoint != "" then ["url=" + cfg.endpoint] else []) +
    (if TrimSpace(cfg.region) != "" then ["endpoint=" + TrimSpace(cfg.region)] else []) +
    (if cfg.pathStyle then ["use_path_request_style"] else [])
  }

  /** buildS3Options. */
  function Build(cfg: Config, passwd: string): string {
    Join(Parts(cfg, passwd), ",")
  }

  function After(s: string, prefix: string): string
    requires HasPrefix(s, prefix)
  {
    s[|prefix|..]
  }

  /** What one option sets. */
  function Set(cfg: Config, part: string): Config {
    var p := TrimSpace(part);
    if HasPrefix(p, "url=") then cfg.(endpoint := After(p, "url="))
    else if HasPrefix(p, "endpoint=") then cfg.(region := After(p, "endpoint="))
    else if p == "use_path_request_style" then cfg.(pathStyle := true)
    else cfg
  }

  function SetAll(cfg: Config, parts: seq<string>): Config {
    if parts == [] then cfg else Set(SetAll(cfg, parts[..|parts| - 1]), parts[|parts| - 1])
  }

  const NONE := Config("", "", false)

  /** parseS3Options. */
  function ParseOptions(options: string): Config {
    SetAll(NONE, SplitOn(options, ','))
  }

  function FirstPasswd(parts: seq<string>): string {
    if parts == [] then ""
    else
      var p := TrimSpace(parts[0]);
      if HasPrefix(p, "passwd_file=") then After(p, "passwd_file=") else FirstPasswd(parts[1..])
  }

  /** parsePasswdFileOption. */
  function ParsePasswd(options: string): string {
    FirstPasswd(SplitOn(options, ','))
  }

  // ---------- the round trip ----------

  predicate NoTail(s: string) {
    s == "" || !IsSpace(s[|s| - 1])
  }

  /** No comma, and no blank at the end. */
  predicate Tidy(s: string) {
    ',' !in s && NoTail(s)
  }

  lemma {:induction false} SplitParts(s: string)
    ensures forall p <- SplitOn(s, ',') :: ',' !in p
  {
    if s != "" {
      SplitParts(s[1..]);
      var rest := SplitOn(s[1..], ',');
      assert rest[0] in rest;
    }
  }

  lemma {:induction false} SplitJoin(parts: seq<string>)
    requires parts != [] && forall p <- parts :: ',' !in p
    ensures SplitOn(Join(parts, ","), ',') == parts
    decreases |parts|
  {
    assert parts[0] in parts && forall p <- parts[1..] :: p in parts;
    if |parts| == 1 {
      SplitOne(parts[0], ',');
    } else {
      SplitJoin(parts[1..]);
      SplitFirst(parts[0], Join(parts[1..], ","), ',');
      assert [parts[0]] + parts[1..] == parts;
    }
  }

  lemma TrimSpaceTidies(s: string)
    requires ',' !in s
    ensures Tidy(TrimSpace(s))
  {
    TrimSpaceTrims(s);
    TrimSpaceWithin(s);
  }

  lemma AfterIsTidy(s: string, prefix: string)
    requires HasPrefix(s, prefix) && Tidy(s)
    ensures Tidy(After(s, prefix))
  {
    assert forall c <- After(s, prefix) :: c in s;
  }

  /** Whatever is read is tidy. */
  lemma {:induction false} SetIsTidy(cfg: Config, parts: seq<string>)
    requires Tidy(cfg.endpoint) && Tidy(cfg.region) && forall p <- parts :: ',' !in p
    ensures var r := SetAll(cfg, parts); Tidy(r.endpoint) && Tidy(r.region)
  {
    hide TrimSpace, Tidy, HasPrefix;
    if parts != [] {
      var init, last := parts[..|parts| - 1], parts[|parts| - 1];
      assert last in parts && forall p <- init :: p in parts;
      SetIsTidy(cfg, init);
      TrimSpaceTidies(last);
      var p := TrimSpace(last);
      if HasPrefix(p, "url=") {
        AfterIsTidy(p, "url=");
      } else if HasPrefix(p, "endpoint=") {
        AfterIsTidy(p, "endpoint=");
      }
    }
  }

  lemma {:induction false} PasswdIsTidy(parts: seq<string>)
    requires forall p <- parts :: ',' !in p
    ensures Tidy(FirstPasswd(parts))
  {
    hide TrimSpace, HasPrefix;
    if parts != [] {
      assert parts[0] in parts && forall p <- parts[1..] :: p in parts;
      TrimSpaceTidies(parts[0]);
      PasswdIsTidy(parts[1..]);
      var p := TrimSpace(parts[0]);
      if HasPrefix(p, "passwd_file=") {
        hide Tidy;
        AfterIsTidy(p, "passwd_file=");
      }
    }
  }

  lemma OptionStays(name: string, value: string)
    requires name != "" && !IsSpace(name[0]) && !IsSpace(name[|name| - 1]) && NoTail(value)
    ensures TrimSpace(name + value) == name + value
    ensures HasPrefix(name + value, name) && After(name + value, name) == value
  {
    var s := name + value;
    assert s[0] == name[0] && s[|s| - 1] == if value == "" then name[|name| - 1] else value[|value| - 1];
    TrimmedStays(s);
  }

  /** Two names that differ in a letter are not mixed up. */
  lemma OtherName(s: string, prefix: string, i: nat)
    requires i < |prefix| && i < |s| && s[i] != prefix[i]
    ensures !HasPrefix(s, prefix)
  {
    if |prefix| <= |s| { assert s[..|prefix|][i] == s[i]; }
  }

  lemma SetPlain(cfg: Config, part: string)
    requires part in {"_netdev", "allow_other"}
    ensures Set(cfg, part) == cfg && !HasPrefix(TrimSpace(part), "passwd_file=")
  {
    TrimmedStays(part);
    OtherName(part, "url=", 0);
    OtherName(part, "endpoint=", 0);
    OtherName(part, "passwd_file=", 0);
  }

  lemma SetPasswd(cfg: Config, passwd: string)
    requires NoTail(passwd)
    ensures Set(cfg, "passwd_file=" + passwd) == cfg
  {
    OptionStays("passwd_file=", passwd);
    OtherName("passwd_file=" + passwd, "url=", 0);
    OtherName("passwd_file=" + passwd, "endpoint=", 0);
    assert ("passwd_file=" + passwd)[0] != "use_path_request_style"[0];
  }

  lemma SetUrl(cfg: Config, endpoint: string)
    requires NoTail(endpoint)
    ensures Set(cfg, "url=" + endpoint) == cfg.(endpoint := endpoint)
  {
    OptionStays("url=", endpoint);
  }

  lemma SetRegion(cfg: Config, region: string)
    requires NoTail(region)
    ensures Set(cfg, "endpoint=" + region) == cfg.(region := region)
  {
    OptionStays("endpoint=", region);
    OtherName("endpoint=" + region, "url=", 0);
  }

  lemma SetPathStyle(cfg: Config)
    ensures Set(cfg, "use_path_request_style") == cfg.(pathStyle := true)
  {
    var p := "use_path_request_style";
    TrimmedStays(p);
    OtherName(p, "url=", 1);
    OtherName(p, "endpoint=", 0);
  }

  lemma SetMore(cfg: Config, parts: seq<string>, part: string)
    ensures SetAll(cfg, parts + [part]) == Set(SetAll(cfg, parts), part)
  {
    assert (parts + [part])[..|parts|] == parts;
  }

  /** The options of tidy values set these values; of the region, what TrimSpace leaves. */
  lemma SetParts(cfg: Config, passwd: string)
    requires NoTail(cfg.endpoint) && NoTail(passwd)
    ensures SetAll(NONE, Parts(cfg, passwd)) == cfg.(region := TrimSpace(cfg.region))
  {
    hide Set, NoTail, TrimSpace;
    var region := TrimSpace(cfg.region);
    assert NoTail(region) by { RegionHasNoTail(cfg.region); }
    var a := ["_netdev", "allow_other", "passwd_file=" + passwd];
    SetFirstThree(passwd);
    var b := a + if cfg.endpoint != "" then ["url=" + cfg.endpoint] else [];
    SetUrl(NONE, cfg.endpoint);
    var withUrl := NONE.(endpoint := cfg.endpoint);
    if cfg.endpoint != "" { SetMore(NONE, a, "url=" + cfg.endpoint); } else { assert b == a; }
    assert SetAll(NONE, b) == withUrl;
    var c := b + if region != "" then ["endpoint=" + region] else [];
    SetRegion(withUrl, region);
    var withRegion := withUrl.(region := region);
    if region != "" { SetMore(NONE, b, "endpoint=" + region); } else { assert c == b; }
    assert SetAll(NONE, c) == withRegion;
    SetPathStyle(withRegion);
    var d := c + if cfg.pathStyle then ["use_path_request_style"] else [];
    if cfg.pathStyle { SetMore(NONE, c, "use_path_request_style"); } else { assert d == c; }
    assert Parts(cfg, passwd) == d;
  }

  lemma RegionHasNoTail(region: string)
    ensures NoTail(TrimSpace(region))
  {
    TrimSpaceTrims(region);
  }

  lemma SetFirstThree(passwd: string)
    requires NoTail(passwd)
    ensures SetAll(NONE, ["_netdev", "allow_other", "passwd_file=" + passwd]) == NONE
  {
    hide Set, NoTail;
    SetMore(NONE, [], "_netdev");
    assert [] + ["_netdev"] == ["_netdev"] && ["_netdev"] + ["allow_other"] == ["_netdev", "allow_other"];
    assert ["_netdev", "allow_other"] + ["passwd_file=" + passwd] ==
             ["_netdev", "allow_other", "passwd_file=" + passwd];
    SetPlain(NONE, "_netdev");
    SetMore(NONE, ["_netdev"], "allow_other");
    SetPlain(NONE, "allow_other");
    SetMore(NONE, ["_netdev", "allow_other"], "passwd_file=" + passwd);
    SetPasswd(NONE, passwd);
  }

  lemma FindNext(parts: seq<string>)
    requires parts != []
    ensures var p := TrimSpace(parts[0]);
            FirstPasswd(parts) ==
            if HasPrefix(p, "passwd_file=") then After(p, "passwd_file=") else FirstPasswd(parts[1..])
  {
  }

  lemma FindPasswd(cfg: Config, passwd: string)
    requires NoTail(passwd)
    ensures FirstPasswd(Parts(cfg, passwd)) == passwd
  {
    hide TrimSpace, HasPrefix, NoTail;
    var parts := Parts(cfg, passwd);
    SetPlain(NONE, "_netdev");
    SetPlain(NONE, "allow_other");
    OptionStays("passwd_file=", passwd);
    var second := parts[1..];
    var third := second[1..];
    assert parts[0] == "_netdev" && second[0] == "allow_other" && third[0] == "passwd_file=" + passwd;
    FindNext(parts);
    FindNext(second);
    FindNext(third);
  }

  lemma TrimSpaceNoComma(s: string)
    requires ',' !in s
    ensures ',' !in TrimSpace(s)
  {
    TrimSpaceTidies(s);
  }

  lemma PartsHaveNoComma(cfg: Config, passwd: string)
    requires ',' !in cfg.endpoint && ',' !in cfg.region && ',' !in passwd
    ensures forall p <- Parts(cfg, passwd) :: ',' !in p
  {
    hide TrimSpace;
    TrimSpaceNoComma(cfg.region);
  }

  /** The options give back the endpoint, the region, the path style and the password file
      exactly when none of these has a comma, none ends in a blank and the region does not
      begin with one either. */
  lemma OptionsRoundTripIff(cfg: Config, passwd: string)
    ensures ParseOptions(Build(cfg, passwd)) == cfg && ParsePasswd(Build(cfg, passwd)) == passwd <==>
            Tidy(cfg.endpoint) && Tidy(passwd) && Tidy(cfg.region) && Trimmed(cfg.region)
  {
    hide Parts, SetAll, FirstPasswd, TrimSpace;
    var options := Build(cfg, passwd);
    SplitParts(options);
    SetIsTidy(NONE, SplitOn(options, ','));
    PasswdIsTidy(SplitOn(options, ','));
    if Tidy(cfg.endpoint) && Tidy(passwd) && Tidy(cfg.region) {
      PartsHaveNoComma(cfg, passwd);
      assert Parts(cfg, passwd) != [] by { PartsAreSome(cfg, passwd); }
      SplitJoin(Parts(cfg, passwd));
      SetParts(cfg, passwd);
      FindPasswd(cfg, passwd);
      TrimSpaceTrims(cfg.region);
      if Trimmed(cfg.region) { TrimmedStays(cfg.region); }
    }
  }

  lemma PartsAreSome(cfg: Config, passwd: string)
    ensures Parts(cfg, passwd) != []
  {
    hide TrimSpace;
    assert |Parts(cfg, passwd)| >= 3;
  }

  // ---------- the code ----------

  /** normalize: normalizeS3Endpoint, which parses a URL and may fail. */
  method BuildOptions(cfg: Config, passwd: string, normalize: string -> Option<string>) returns (r: Option<string>)
    ensures r == match normalize(cfg.endpoint)
                 case None => None
                 case Some(endpoint) => Some(Build(cfg.(endpoint := endpoint), passwd))
  {
    hide TrimSpace, Join;
    var normalized := normalize(cfg.endpoint);
    if normalized == None { return None; }
    var endpoint := normalized.value;
    var opts := ["_netdev", "allow_other", "passwd_file=" + passwd];
    if endpoint != "" { opts := opts + ["url=" + endpoint]; }
    if TrimSpace(cfg.region) != "" { opts := opts + ["endpoint=" + TrimSpace(cfg.region)]; }
    if cfg.pathStyle { opts := opts + ["use_path_request_style"]; }
    assert opts == Parts(cfg.(endpoint := endpoint), passwd);
    return Some(Join(opts, ","));
  }

  method ReadOptions(options: string) returns (cfg: Config)
    ensures cfg == ParseOptions(options)
  {
    hide TrimSpace;
    var parts := SplitOn(options, ',');
    cfg := NONE;
    for i := 0 to |parts|
      invariant cfg == SetAll(NONE, parts[..i])
    {
      assert parts[..i + 1][..i] == parts[..i];
      var part := TrimSpace(parts[i]);
      if HasPrefix(part, "url=") {
        cfg := cfg.(endpoint := part[4..]);
      } else if HasPrefix(part, "endpoint=") {
        cfg := cfg.(region := part[9..]);
      } else if part == "use_path_request_style" {
        cfg := cfg.(pathStyle := true);
      }
    }
    assert parts[..|parts|] == parts;
  }
}
