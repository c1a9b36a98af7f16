/**
  The requested origin of an installation: which domain names and e-mail
  addresses are accepted, and the settings they stand for.
*/
module InstallOrigin {
  import opened EnvFile
  import opened Replacing
  import opened Text

  predicate IsAlnum(c: char) {
    'A' <= c <= 'Z' || 'a' <= c <= 'z' || '0' <= c <= '9'
  }

  /** `str.split(c)` */
  function SplitOn(s: string, c: char): seq<string> {
    var i := IndexOf(s, c);
    if i == |s| then [s] else [s[..i]] + SplitOn(s[i + 1..], c)
  }

  /** The parts are what stands between the separators. */
  lemma {:induction false} SplitOnJoins(s: string, c: char)
    ensures Join(SplitOn(s, c), [c]) == s && forall p :: p in SplitOn(s, c) ==> c !in p
  {
    var i := IndexOf(s, c);
    if i < |s| {
      SplitOnJoins(s[i + 1..], c);
      assert SplitOn(s, c)[1..] == SplitOn(s[i + 1..], c);
      assert s == s[..i] + [c] + s[i + 1..];
    }
  }

  predicate PartOk(part: string) {
    && 1 <= |part| <= 63
    && IsAlnum(part[0]) && IsAlnum(part[|part| - 1])
    && forall c :: c in part ==> IsAlnum(c) || c == '-'
  }

  predicate DomainOk(domain: string) {
    |domain| <= 253 && forall part :: part in SplitOn(domain, '.') ==> PartOk(part)
  }

  predicate MailboxOk(s: string) {
    s != "" && forall c :: c in s ==> IsAlnum(c) || c == '.' || c == '_' || c == '%' || c == '+' || c == '-'
  }

  predicate MailHostOk(s: string) {
    s != "" && forall c :: c in s ==> IsAlnum(c) || c == '.' || c == '-'
  }

  predicate EmailOk(email: string) {
    var at := IndexOf(email, '@');
    |email| <= 254 && at < |email| && MailboxOk(email[..at]) && MailHostOk(email[at + 1..])
  }

  /** What `validate_origin` lets through; an empty argument is an absent one. */
  predicate OriginOk(domain: string, email: string) {
    && (domain != "" ==> DomainOk(domain))
    && (email != "" ==> domain != "" && EmailOk(email))
  }

  function OfDomain(domain: string): seq<Setting> {
    [ Setting("CADDY_SITE_ADDRESS", domain),
      Setting("EDGE_HTTP_PORT", "80"),
      Setting("EDGE_HTTPS_PORT", "443"),
      Setting("PUBLIC_BASE_URL", "https://" + domain),
      Setting("FRONTEND_URL", "https://" + domain),
      Setting("CORS_ORIGINS", "[\"https://" + domain + "\"]") ]
  }

  const LOCAL: seq<Setting> := [
    Setting("CADDY_SITE_ADDRESS", "localhost"),
    Setting("PUBLIC_BASE_URL", "https://localhost"),
    Setting("CORS_ORIGINS", "[\"https://localhost\"]")]

  /** The settings that a run of the installer insists on, in their order. */
  function Overrides(tier: string, dev: bool, domain: string, email: string, isNew: bool): seq<Setting> {
    if domain != "" then OfDomain(domain) + if email != "" then [Setting("CADDY_ACME_EMAIL", email)] else []
    else if isNew && !dev && tier != "lite" then LOCAL
    else []
  }

  /** Settings that survive being printed on a line each: names that parse, trimmed one-line values, no name twice. */
  ghost predicate OverridesOk(overrides: seq<Setting>) {
    && (forall s :: s in overrides ==> SettingOk(s))
    && (forall i, j :: 0 <= i < j < |overrides| ==> overrides[i].key != overrides[j].key)
  }

  predicate SettingOk(s: Setting) {
    KeyOk(s.key) && s.key != "" && IsTrimmed(s.value) && OneLine(s.key) && OneLine(s.value)
  }

  // ------------------------------------------- accepted origins are printable

  /** Visible ASCII: no white space and no line break. */
  predicate Visible(s: string) {
    forall c :: c in s ==> '!' <= c <= '~'
  }

  lemma VisibleIsOk(s: string)
    requires Visible(s)
    ensures IsTrimmed(s) && OneLine(s)
  {
    if s != "" { assert s[0] in s && s[|s| - 1] in s; }
  }

  lemma VisibleConcat(a: string, b: string)
    requires Visible(a) && Visible(b)
    ensures Visible(a + b)
  {
  }

  /** Letters, digits, hyphens and dots. */
  predicate HostLike(s: string) {
    forall c :: c in s ==> IsAlnum(c) || c == '-' || c == '.'
  }

  lemma HostLikeConcat(a: string, b: string)
    requires HostLike(a) && HostLike(b)
    ensures HostLike(a + b)
  {
  }

  lemma {:induction false} SplitOnHostLike(s: string)
    requires forall p :: p in SplitOn(s, '.') ==> HostLike(p)
    ensures HostLike(s)
  {
    var i := IndexOf(s, '.');
    if i == |s| {
      assert s in SplitOn(s, '.');
    } else {
      var head, tail := s[..i], s[i + 1..];
      var parts := SplitOn(tail, '.');
      assert SplitOn(s, '.') == [head] + parts;
      assert head in [head] + parts;
      forall p | p in parts ensures HostLike(p) { assert p in [head] + parts; }
      SplitOnHostLike(tail);
      HostLikeConcat(['.'], tail);
      HostLikeConcat(head, ['.'] + tail);
      assert s == head + (['.'] + tail);
    }
  }

  lemma DomainIsHostLike(domain: string)
    requires DomainOk(domain)
    ensures HostLike(domain) && Visible(domain) && '_' !in domain
  {
    SplitOnHostLike(domain);
  }

  lemma EmailIsVisible(email: string)
    requires EmailOk(email)
    ensures Visible(email)
  {
    var at := IndexOf(email, '@');
    assert email[at] == '@' && Visible(['@']);
    VisibleConcat(email[..at], ['@']);
    VisibleConcat(email[..at] + ['@'], email[at + 1..]);
    assert email == email[..at] + ['@'] + email[at + 1..];
  }

  predicate IsName(key: string) {
    key != "" && forall i :: 0 <= i < |key| ==> 'A' <= key[i] <= 'Z' || key[i] == '_'
  }

  lemma NamedSettingOk(key: string, value: string)
    requires IsName(key) && Visible(value)
    ensures SettingOk(Setting(key, value))
  {
    VisibleIsOk(key);
    VisibleIsOk(value);
  }

  lemma NamesAreNames()
    ensures IsName("CADDY_SITE_ADDRESS") && IsName("EDGE_HTTP_PORT") && IsName("EDGE_HTTPS_PORT") && IsName("PUBLIC_BASE_URL")
    ensures IsName("FRONTEND_URL") && IsName("CORS_ORIGINS") && IsName("CADDY_ACME_EMAIL")
  {
  }

  lemma LiteralsAreVisible()
    ensures Visible("80") && Visible("443") && Visible("localhost") && Visible("https://") && Visible("[\"https://") && Visible("\"]")
  {
  }

  lemma DomainSettings(domain: string, email: string)
    requires domain != "" && Visible(domain) && Visible(email)
    ensures OverridesOk(Overrides("", false, domain, email, false))
  {
    NamesAreNames();
    LiteralsAreVisible();
    VisibleConcat("https://", domain);
    VisibleConcat("[\"https://", domain);
    VisibleConcat("[\"https://" + domain, "\"]");
    NamedSettingOk("CADDY_SITE_ADDRESS", domain);
    NamedSettingOk("EDGE_HTTP_PORT", "80");
    NamedSettingOk("EDGE_HTTPS_PORT", "443");
    NamedSettingOk("PUBLIC_BASE_URL", "https://" + domain);
    NamedSettingOk("FRONTEND_URL", "https://" + domain);
    NamedSettingOk("CORS_ORIGINS", "[\"https://" + domain + "\"]");
    NamedSettingOk("CADDY_ACME_EMAIL", email);
  }

  lemma LocalSettings()
    ensures OverridesOk(Overrides("", false, "", "", true))
  {
    NamesAreNames();
    LiteralsAreVisible();
    VisibleConcat("https://", "localhost");
    VisibleConcat("[\"https://", "localhost");
    VisibleConcat("[\"https://" + "localhost", "\"]");
    NamedSettingOk("CADDY_SITE_ADDRESS", "localhost");
    NamedSettingOk("PUBLIC_BASE_URL", "https://" + "localhost");
    NamedSettingOk("CORS_ORIGINS", "[\"https://" + "localhost" + "\"]");
  }

  /** Whatever origin is accepted, its settings can be printed and read back. */
  lemma AcceptedOverridesAreOk(tier: string, dev: bool, domain: string, email: string, isNew: bool)
    requires OriginOk(domain, email)
    ensures OverridesOk(Overrides(tier, dev, domain, email, isNew))
  {
    if domain != "" {
      DomainIsHostLike(domain);
      if email != "" { EmailIsVisible(email); }
      DomainSettings(domain, email);
    } else {
      LocalSettings();
    }
  }

  // ------------------------------------------------------------- placeholders

  ghost predicate SomeMarked(settings: seq<Setting>) {
    exists s :: s in settings && Marked(s.value)
  }

  lemma NoneMarked(settings: seq<Setting>)
    requires forall i :: 0 <= i < |settings| ==> '_' !in settings[i].value
    ensures !SomeMarked(settings)
  {
    forall i | 0 <= i < |settings| ensures !Marked(settings[i].value) { UnmarkedWithout(settings[i].value); }
  }

  lemma SomeMarkedConcat(a: seq<Setting>, b: seq<Setting>)
    ensures SomeMarked(a + b) <==> SomeMarked(a) || SomeMarked(b)
  {
    forall s ensures s in a + b <==> s in a || s in b { }
  }

  lemma DomainUnmarked(domain: string)
    requires '_' !in domain
    ensures !SomeMarked(OfDomain(domain))
  {
    NoneMarked(OfDomain(domain));
  }

  lemma LocalUnmarked()
    ensures !SomeMarked(LOCAL)
  {
    NoneMarked(LOCAL);
  }

  /** Of an accepted origin, only the e-mail address can contain a placeholder. */
  lemma OriginMarks(tier: string, dev: bool, domain: string, email: string, isNew: bool)
    requires OriginOk(domain, email)
    ensures SomeMarked(Overrides(tier, dev, domain, email, isNew)) <==> Marked(email)
  {
    UnmarkedWithout("");
    if domain != "" {
      DomainIsHostLike(domain);
      DomainUnmarked(domain);
      var rest := if email != "" then [Setting("CADDY_ACME_EMAIL", email)] else [];
      SomeMarkedConcat(OfDomain(domain), rest);
      assert SomeMarked(rest) <==> Marked(email) by {
        if email != "" { assert rest[0] in rest; }
      }
    } else {
      LocalUnmarked();
    }
  }

  /** An accepted e-mail address that contains one. */
  lemma MarkedEmail()
    ensures OriginOk("x.org", PLACEHOLDER + "@" + "x.org") && Marked(PLACEHOLDER + "@" + "x.org")
  {
    DomainXOrg();
    EmailXOrg();
  }

  lemma DomainXOrg()
    ensures DomainOk("x.org")
  {
    var d := "x.org";
    assert IndexOf(d, '.') == 1 && d[..1] == "x" && d[2..] == "org";
    assert IndexOf("org", '.') == 3;
    assert SplitOn("org", '.') == ["org"];
    assert SplitOn(d, '.') == ["x"] + ["org"];
  }

  lemma AddressOk(name: string, host: string)
    requires MailboxOk(name) && MailHostOk(host) && |name| + 1 + |host| <= 254
    ensures EmailOk(name + "@" + host)
  {
    var email := name + "@" + host;
    forall k | 0 <= k < |name| ensures email[k] != '@' { assert email[k] == name[k] && name[k] in name; }
    FirstIs(email, '@', |name|);
    assert email[..|name|] == name && email[|name| + 1..] == host;
  }

  /** An accepted address is a mailbox, an at sign and a host. */
  lemma EmailIsExact(email: string)
    ensures EmailOk(email) <==>
              |email| <= 254 && exists name, host :: MailboxOk(name) && MailHostOk(host) && email == name + "@" + host
  {
    if EmailOk(email) {
      var at := IndexOf(email, '@');
      assert MailboxOk(email[..at]) && MailHostOk(email[at + 1..]) && email == email[..at] + "@" + email[at + 1..];
    }
    if |email| <= 254 && exists name, host :: MailboxOk(name) && MailHostOk(host) && email == name + "@" + host {
      var name, host :| MailboxOk(name) && MailHostOk(host) && email == name + "@" + host;
      AddressOk(name, host);
    }
  }

  lemma PlaceholderIsMailbox()
    ensures MailboxOk(PLACEHOLDER) && MailHostOk("x.org")
  {
  }

  lemma MarkedStart(rest: string)
    ensures Marked(PLACEHOLDER + rest)
  {
    assert PLACEHOLDER <= (PLACEHOLDER + rest)[0..];
  }

  lemma EmailXOrg()
    ensures EmailOk(PLACEHOLDER + "@" + "x.org") && Marked(PLACEHOLDER + "@" + "x.org")
  {
    PlaceholderIsMailbox();
    AddressOk(PLACEHOLDER, "x.org");
    MarkedStart("@" + "x.org");
    assert PLACEHOLDER + "@" + "x.org" == PLACEHOLDER + ("@" + "x.org");
  }
}
