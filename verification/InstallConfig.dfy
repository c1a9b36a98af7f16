/**
  The installer's rewriting of an environment file: line by line, with the
  settings of the requested origin laid over what is there.
*/
module InstallConfig {
  import opened EnvFile
  import opened InstallOrigin
  import opened Text

  // ---------------------------------------------------------------- rewriting

  function Overlay(overrides: seq<Setting>): map<string, string> {
    if overrides == [] then map[]
    else Overlay(overrides[..|overrides| - 1])[overrides[|overrides| - 1].key := overrides[|overrides| - 1].value]
  }

  /** The secret for the setting on line `i` of a new installation. */
  function Generated(key: string, i: nat, secret: nat -> string): string {
    if key == "FLOWER_BASIC_AUTH" then "admin:" + secret(i) else secret(i)
  }

  /** One line of the new file. */
  function Rewritten(line: string, i: nat, isNew: bool, overrides: map<string, string>, secret: nat -> string): string {
    var parsed := Parse(line);
    if parsed.None? then line
    else if parsed.value.key in overrides then Print(Setting(parsed.value.key, overrides[parsed.value.key]))
    else if isNew && Marked(parsed.value.value)
         then Print(Setting(parsed.value.key, Generated(parsed.value.key, i, secret)))
    else line
  }

  function RewrittenAll(lines: seq<string>, isNew: bool, overrides: map<string, string>, secret: nat -> string): seq<string> {
    seq(|lines|, i requires 0 <= i < |lines| => Rewritten(lines[i], i, isNew, overrides, secret))
  }

  /** The overridden keys that the file sets itself. */
  function SeenIn(parsed: Parsed, overlay: map<string, string>): set<string> {
    if parsed == [] then {}
    else
      var last := parsed[|parsed| - 1];
      SeenIn(parsed[..|parsed| - 1], overlay)
      + if last.Some? && last.value.key in overlay then {last.value.key} else {}
  }

  function Seen(lines: seq<string>, overlay: map<string, string>): set<string> {
    SeenIn(ParseAll(lines), overlay)
  }

  lemma SeenStep(parsed: Parsed, i: nat, overlay: map<string, string>)
    requires i < |parsed|
    ensures SeenIn(parsed[..i + 1], overlay)
         == SeenIn(parsed[..i], overlay)
            + if parsed[i].Some? && parsed[i].value.key in overlay then {parsed[i].value.key} else {}
  {
    assert parsed[..i + 1][..i] == parsed[..i];
  }

  /** The overrides that no line set, in their own order. */
  function Unseen(overrides: seq<Setting>, seen: set<string>): seq<Setting> {
    if overrides == [] then []
    else
      var last := overrides[|overrides| - 1];
      Unseen(overrides[..|overrides| - 1], seen) + if last.key in seen then [] else [last]
  }

  function PrintAll(settings: seq<Setting>): seq<string> {
    seq(|settings|, i requires 0 <= i < |settings| => Print(settings[i]))
  }

  function Output(lines: seq<string>, isNew: bool, overrides: seq<Setting>, secret: nat -> string): seq<string> {
    var overlay := Overlay(overrides);
    RewrittenAll(lines, isNew, overlay, secret) + PrintAll(Unseen(overrides, Seen(lines, overlay)))
  }

  ghost predicate SecretsOk(secret: nat -> string) {
    forall i :: secret(i) != "" && IsTrimmed(secret(i)) && OneLine(secret(i))
  }

  /** The body of the loop: the new line `i`, and the override it set, if any. */
  method RewriteLine(lines: seq<string>, i: nat, isNew: bool, overlay: map<string, string>, secret: nat -> string)
    returns (rewritten: string, overridden: set<string>)
    requires i < |lines|
    ensures rewritten == RewrittenAll(lines, isNew, overlay, secret)[i]
    ensures SeenIn(ParseAll(lines)[..i + 1], overlay) == SeenIn(ParseAll(lines)[..i], overlay) + overridden
  {
    SeenStep(ParseAll(lines), i, overlay);
    var line := lines[i];
    rewritten, overridden := line, {};
    var parsed := Parse(line);
    if parsed.Some? {
      var key := parsed.value.key;
      if isNew && Marked(parsed.value.value) {
        rewritten := key + "=" + Generated(key, i, secret);
      }
      if key in overlay {
        rewritten := key + "=" + overlay[key];
        overridden := {key};
      }
    }
  }

  lemma TakeNext(all: seq<string>, i: nat)
    requires i < |all|
    ensures all[..i + 1] == all[..i] + [all[i]]
  {
  }

  /** The loop of `configure` over the existing lines. */
  method RewriteLines(lines: seq<string>, isNew: bool, overlay: map<string, string>, secret: nat -> string)
    returns (output: seq<string>, seen: set<string>)
    ensures output == RewrittenAll(lines, isNew, overlay, secret) && seen == Seen(lines, overlay)
  {
    output, seen := [], {};
    ghost var all, parsed := RewrittenAll(lines, isNew, overlay, secret), ParseAll(lines);
    for i := 0 to |lines|
      invariant output == all[..i]
      invariant seen == SeenIn(parsed[..i], overlay)
    {
      var line, overridden := RewriteLine(lines, i, isNew, overlay, secret);
      TakeNext(all, i);
      output, seen := output + [line], seen + overridden;
    }
    assert all[..|lines|] == all;
    assert parsed[..|lines|] == parsed;
  }

  method AppendUnseen(overrides: seq<Setting>, seen: set<string>, before: seq<string>) returns (output: seq<string>)
    ensures output == before + PrintAll(Unseen(overrides, seen))
  {
    output := before;
    for i := 0 to |overrides|
      invariant output == before + PrintAll(Unseen(overrides[..i], seen))
    {
      assert overrides[..i + 1][..i] == overrides[..i];
      if overrides[i].key !in seen {
        output := output + [Print(overrides[i])];
      }
    }
    assert overrides[..|overrides|] == overrides;
  }

  // ------------------------------------------------- what the rewriting means

  lemma {:induction false} AssignedConcat(a: Parsed, b: Parsed)
    ensures Assigned(a + b) == Assigned(a) + Assigned(b)
  {
    if b == [] {
      assert a + b == a;
    } else {
      assert (a + b)[..|a + b| - 1] == a + b[..|b| - 1];
      AssignedConcat(a, b[..|b| - 1]);
    }
  }

  lemma {:induction false} OverlayLooksUp(overrides: seq<Setting>, s: Setting)
    requires OverridesOk(overrides)
    ensures s in overrides <==> s.key in Overlay(overrides) && Overlay(overrides)[s.key] == s.value
  {
    if overrides != [] {
      var init, last := overrides[..|overrides| - 1], overrides[|overrides| - 1];
      assert overrides == init + [last];
      OverlayLooksUp(init, s);
      OverlayLooksUp(init, Setting(s.key, if s.key in Overlay(init) then Overlay(init)[s.key] else ""));
    }
  }

  /** Every overlaid value can be printed and parsed. */
  ghost predicate OverlayOk(overlay: map<string, string>) {
    forall k :: k in overlay ==> KeyOk(k) && IsTrimmed(overlay[k]) && OneLine(k) && OneLine(overlay[k])
  }

  lemma OverlayIsOk(overrides: seq<Setting>)
    requires OverridesOk(overrides)
    ensures OverlayOk(Overlay(overrides))
  {
    forall k | k in Overlay(overrides)
      ensures KeyOk(k) && IsTrimmed(Overlay(overrides)[k]) && OneLine(k) && OneLine(Overlay(overrides)[k])
    {
      OverlayLooksUp(overrides, Setting(k, Overlay(overrides)[k]));
    }
  }

  /** A secret line parses to its key and the secret. */
  lemma RewrittenParses(line: string, i: nat, isNew: bool, overlay: map<string, string>, secret: nat -> string)
    requires OverlayOk(overlay) && SecretsOk(secret)
    ensures Parse(line).None? ==> Rewritten(line, i, isNew, overlay, secret) == line
    ensures Parse(line).Some? ==>
              var key := Parse(line).value.key;
              && (key in overlay ==> Parse(Rewritten(line, i, isNew, overlay, secret)) == Some(Setting(key, overlay[key])))
              && (key !in overlay ==> Rewritten(line, i, isNew, overlay, secret) == Rewritten(line, i, isNew, map[], secret))
              && Parse(Rewritten(line, i, isNew, map[], secret)).Some?
              && Parse(Rewritten(line, i, isNew, map[], secret)).value.key == key
  {
    if Parse(line).Some? {
      ParsedIsPrintable(line);
      var key := Parse(line).value.key;
      GeneratedIsTrimmed(key, i, secret);
      PrintedParses(Setting(key, Generated(key, i, secret)));
      if key in overlay {
        PrintedParses(Setting(key, overlay[key]));
      }
    }
  }

  lemma GeneratedIsTrimmed(key: string, i: nat, secret: nat -> string)
    requires SecretsOk(secret)
    ensures IsTrimmed(Generated(key, i, secret)) && OneLine(Generated(key, i, secret))
  {
    assert secret(i) != "" && IsTrimmed(secret(i)) && OneLine(secret(i));
  }

  /** One parsed line under an overlay. */
  function Overlaid(x: Option<Setting>, overlay: map<string, string>): Option<Setting> {
    if x.Some? && x.value.key in overlay then Some(Setting(x.value.key, overlay[x.value.key])) else x
  }

  /** Of an overlay, what the file sets itself. */
  function Restrict(m: map<string, string>, keys: set<string>): map<string, string> {
    map k | k in m && k in keys :: m[k]
  }

  function Assign(m: map<string, string>, x: Option<Setting>): map<string, string> {
    if x.None? then m else m[x.value.key := x.value.value]
  }

  lemma AssignedStep(m: map<string, string>, x: Option<Setting>, overlay: map<string, string>, seen: set<string>)
    ensures var seen' := seen + (if x.Some? && x.value.key in overlay then {x.value.key} else {});
            Assign(m + Restrict(overlay, seen), Overlaid(x, overlay)) == Assign(m, x) + Restrict(overlay, seen')
  {
  }

  lemma {:induction false} BodySettings(a: Parsed, b: Parsed, overlay: map<string, string>)
    requires |a| == |b| && forall i :: 0 <= i < |b| ==> a[i] == Overlaid(b[i], overlay)
    ensures Assigned(a) == Assigned(b) + Restrict(overlay, SeenIn(b, overlay))
    ensures SeenIn(b, overlay) <= overlay.Keys
  {
    if b != [] {
      var n := |b| - 1;
      BodySettings(a[..n], b[..n], overlay);
      assert a[n] == Overlaid(b[n], overlay);
      AssignedStep(Assigned(b[..n]), b[n], overlay, SeenIn(b[..n], overlay));
    }
  }

  /** Two files with the same keys line by line see the same overrides. */
  lemma {:induction false} SeenAgrees(a: Parsed, b: Parsed, overlay: map<string, string>)
    requires |a| == |b|
    requires forall i :: 0 <= i < |a| ==> (a[i].Some? <==> b[i].Some?) && (a[i].Some? ==> a[i].value.key == b[i].value.key)
    ensures SeenIn(a, overlay) == SeenIn(b, overlay)
  {
    if a != [] { SeenAgrees(a[..|a| - 1], b[..|b| - 1], overlay); }
  }

  function Given(settings: seq<Setting>): Parsed {
    seq(|settings|, i requires 0 <= i < |settings| => Some(settings[i]))
  }

  lemma {:induction false} UnseenSettings(overrides: seq<Setting>, seen: set<string>)
    ensures Assigned(Given(Unseen(overrides, seen))) == Overlay(overrides) - seen
    ensures forall s :: s in Unseen(overrides, seen) ==> s in overrides && s.key !in seen
  {
    if overrides != [] {
      var init, last := overrides[..|overrides| - 1], overrides[|overrides| - 1];
      UnseenSettings(init, seen);
      if last.key !in seen {
        assert Given(Unseen(init, seen) + [last])[..|Unseen(init, seen)|] == Given(Unseen(init, seen));
      } else {
        assert Unseen(overrides, seen) == Unseen(init, seen) + [] == Unseen(init, seen);
        assert Overlay(overrides) - seen == Overlay(init) - seen;
      }
    }
  }

  /** The rewritten lines, parsed, are the parsed lines (with secrets) under the overlay. */
  lemma RewrittenAllParses(lines: seq<string>, isNew: bool, overlay: map<string, string>, secret: nat -> string)
    requires OverlayOk(overlay) && SecretsOk(secret)
    ensures var a, b := ParseAll(RewrittenAll(lines, isNew, overlay, secret)), ParseAll(RewrittenAll(lines, isNew, map[], secret));
            && |a| == |b| == |lines|
            && (forall i :: 0 <= i < |lines| ==> a[i] == Overlaid(b[i], overlay))
            && SeenIn(b, overlay) == Seen(lines, overlay)
  {
    var a, b := ParseAll(RewrittenAll(lines, isNew, overlay, secret)), ParseAll(RewrittenAll(lines, isNew, map[], secret));
    forall i | 0 <= i < |lines|
      ensures a[i] == Overlaid(b[i], overlay)
      ensures (b[i].Some? <==> Parse(lines[i]).Some?) && (b[i].Some? ==> b[i].value.key == Parse(lines[i]).value.key)
    {
      RewrittenParses(lines[i], i, isNew, overlay, secret);
      RewrittenParses(lines[i], i, isNew, map[], secret);
    }
    SeenAgrees(b, ParseAll(lines), overlay);
  }

  lemma PrintAllParses(settings: seq<Setting>)
    requires forall s :: s in settings ==> KeyOk(s.key) && IsTrimmed(s.value)
    ensures ParseAll(PrintAll(settings)) == Given(settings)
  {
    forall i | 0 <= i < |settings| ensures Parse(PrintAll(settings)[i]) == Some(settings[i]) {
      assert settings[i] in settings;
      PrintedParses(settings[i]);
    }
  }

  /** Overlay in place, then append what was not seen: together the whole overlay. */
  lemma OverlayIsComplete(a: Parsed, b: Parsed, overrides: seq<Setting>)
    requires |a| == |b| && forall i :: 0 <= i < |b| ==> a[i] == Overlaid(b[i], Overlay(overrides))
    ensures Assigned(a + Given(Unseen(overrides, SeenIn(b, Overlay(overrides))))) == Assigned(b) + Overlay(overrides)
  {
    var overlay := Overlay(overrides);
    var seen := SeenIn(b, overlay);
    BodySettings(a, b, overlay);
    UnseenSettings(overrides, seen);
    AssignedConcat(a, Given(Unseen(overrides, seen)));
    SplitOverlay(Assigned(b), overlay, seen);
  }

  lemma SplitOverlay(m: map<string, string>, overlay: map<string, string>, seen: set<string>)
    ensures m + Restrict(overlay, seen) + (overlay - seen) == m + overlay
  {
  }

  lemma OutputParses(lines: seq<string>, isNew: bool, overrides: seq<Setting>, secret: nat -> string)
    requires OverridesOk(overrides)
    ensures ParseAll(Output(lines, isNew, overrides, secret))
         == ParseAll(RewrittenAll(lines, isNew, Overlay(overrides), secret)) + Given(Unseen(overrides, Seen(lines, Overlay(overrides))))
  {
    var body, unseen := RewrittenAll(lines, isNew, Overlay(overrides), secret), Unseen(overrides, Seen(lines, Overlay(overrides)));
    UnseenSettings(overrides, Seen(lines, Overlay(overrides)));
    PrintAllParses(unseen);
    ParseAllConcat(body, PrintAll(unseen));
  }

  lemma ParseAllConcat(a: seq<string>, b: seq<string>)
    ensures ParseAll(a + b) == ParseAll(a) + ParseAll(b)
  {
  }

  /**
    The effective settings of the new file are those of the old one (with fresh
    secrets in place of placeholders, in a new installation) overlaid with the
    overrides, wherever and however often the old file set them.
  */
  lemma OutputSettings(lines: seq<string>, isNew: bool, overrides: seq<Setting>, secret: nat -> string)
    requires OverridesOk(overrides) && SecretsOk(secret)
    ensures Effective(Output(lines, isNew, overrides, secret))
         == Effective(RewrittenAll(lines, isNew, map[], secret)) + Overlay(overrides)
    ensures !isNew ==> RewrittenAll(lines, isNew, map[], secret) == lines
  {
    var overlay := Overlay(overrides);
    OverlayIsOk(overrides);
    RewrittenAllParses(lines, isNew, overlay, secret);
    OutputParses(lines, isNew, overrides, secret);
    OverlayIsComplete(ParseAll(RewrittenAll(lines, isNew, overlay, secret)),
                      ParseAll(RewrittenAll(lines, isNew, map[], secret)), overrides);
  }

  /** Without a domain an existing file keeps every line. */
  lemma WithoutDomainNothingChanges(lines: seq<string>, tier: string, dev: bool, email: string, secret: nat -> string)
    ensures Output(lines, false, Overrides(tier, dev, "", email, false), secret) == lines
  {
    assert RewrittenAll(lines, false, map[], secret) == lines;
    assert lines + [] == lines;
  }

  /** This setting has this value. */
  predicate Sets(settings: map<string, string>, key: string, value: string) {
    key in settings && settings[key] == value
  }

  ghost predicate SetsAll(settings: map<string, string>, overrides: seq<Setting>) {
    forall i :: 0 <= i < |overrides| ==> Sets(settings, overrides[i].key, overrides[i].value)
  }

  /** Every override is in force in the new file. */
  lemma OverridesAreEffective(lines: seq<string>, isNew: bool, overrides: seq<Setting>, secret: nat -> string)
    requires OverridesOk(overrides) && SecretsOk(secret)
    ensures SetsAll(Effective(Output(lines, isNew, overrides, secret)), overrides)
  {
    OutputSettings(lines, isNew, overrides, secret);
    forall i | 0 <= i < |overrides|
      ensures Sets(Effective(Output(lines, isNew, overrides, secret)), overrides[i].key, overrides[i].value)
    {
      OverlayLooksUp(overrides, overrides[i]);
    }
  }

  /** The public URL, and the one origin that may call the API, are this host over HTTPS. */
  ghost predicate Serves(m: map<string, string>, host: string) {
    && Sets(m, "CADDY_SITE_ADDRESS", host) && Sets(m, "PUBLIC_BASE_URL", "https://" + host)
    && Sets(m, "CORS_ORIGINS", "[\"" + m["PUBLIC_BASE_URL"] + "\"]")
  }

  lemma DomainServes(m: map<string, string>, domain: string)
    requires SetsAll(m, OfDomain(domain))
    ensures Serves(m, domain) && Sets(m, "FRONTEND_URL", m["PUBLIC_BASE_URL"])
    ensures Sets(m, "EDGE_HTTP_PORT", "80") && Sets(m, "EDGE_HTTPS_PORT", "443")
  {
    var o := OfDomain(domain);
    assert Sets(m, o[0].key, o[0].value) && Sets(m, o[1].key, o[1].value) && Sets(m, o[2].key, o[2].value);
    assert Sets(m, o[3].key, o[3].value) && Sets(m, o[4].key, o[4].value) && Sets(m, o[5].key, o[5].value);
    assert "[\"https://" + domain + "\"]" == "[\"" + ("https://" + domain) + "\"]";
  }

  lemma LocalServes(m: map<string, string>)
    requires SetsAll(m, LOCAL)
    ensures Serves(m, "localhost")
  {
    assert Sets(m, LOCAL[0].key, LOCAL[0].value) && Sets(m, LOCAL[1].key, LOCAL[1].value) && Sets(m, LOCAL[2].key, LOCAL[2].value);
  }

  lemma SetsPrefix(m: map<string, string>, a: seq<Setting>, b: seq<Setting>)
    requires SetsAll(m, a + b)
    ensures SetsAll(m, a) && SetsAll(m, b)
  {
    forall i | 0 <= i < |a| ensures Sets(m, a[i].key, a[i].value) { assert a[i] == (a + b)[i]; }
    forall i | 0 <= i < |b| ensures Sets(m, b[i].key, b[i].value) { assert b[i] == (a + b)[|a| + i]; }
  }

  /**
    After a run for a domain, the site address, the public URL, the frontend's URL
    and the one allowed origin are all that domain over HTTPS, on the standard ports.
  */
  lemma DomainIsEffective(lines: seq<string>, isNew: bool, tier: string, dev: bool, domain: string, email: string,
                          secret: nat -> string)
    requires OriginOk(domain, email) && domain != "" && SecretsOk(secret)
    ensures var m := Effective(Output(lines, isNew, Overrides(tier, dev, domain, email, isNew), secret));
            && Serves(m, domain) && Sets(m, "FRONTEND_URL", m["PUBLIC_BASE_URL"])
            && Sets(m, "EDGE_HTTP_PORT", "80") && Sets(m, "EDGE_HTTPS_PORT", "443")
            && (email != "" ==> Sets(m, "CADDY_ACME_EMAIL", email))
  {
    AcceptedOverridesAreOk(tier, dev, domain, email, isNew);
    OverridesAreEffective(lines, isNew, Overrides(tier, dev, domain, email, isNew), secret);
    var m := Effective(Output(lines, isNew, Overrides(tier, dev, domain, email, isNew), secret));
    var rest := if email != "" then [Setting("CADDY_ACME_EMAIL", email)] else [];
    SetsPrefix(m, OfDomain(domain), rest);
    DomainServes(m, domain);
    if email != "" { assert Sets(m, rest[0].key, rest[0].value); }
  }

  /** A new installation without a domain, beyond the lite tier, is served on localhost over HTTPS. */
  lemma LocalIsEffective(lines: seq<string>, tier: string, secret: nat -> string)
    requires tier != "lite" && SecretsOk(secret)
    ensures Serves(Effective(Output(lines, true, Overrides(tier, false, "", "", true), secret)), "localhost")
  {
    LocalSettings();
    OverridesAreEffective(lines, true, LOCAL, secret);
    LocalServes(Effective(Output(lines, true, LOCAL, secret)));
  }

  // --------------------------------------------------- what the file keeps

  predicate Kept(line: string, overlay: map<string, string>) {
    Parse(line).None? || Parse(line).value.key !in overlay
  }

  /** The lines that do not set an overridden key, in order. */
  function Others(lines: seq<string>, overlay: map<string, string>): seq<string> {
    if lines == [] then []
    else
      var last := lines[|lines| - 1];
      Others(lines[..|lines| - 1], overlay) + if Kept(last, overlay) then [last] else []
  }

  lemma {:induction false} OthersConcat(a: seq<string>, b: seq<string>, overlay: map<string, string>)
    ensures Others(a + b, overlay) == Others(a, overlay) + Others(b, overlay)
  {
    if b == [] {
      assert a + b == a;
    } else {
      assert (a + b)[..|a + b| - 1] == a + b[..|b| - 1];
      OthersConcat(a, b[..|b| - 1], overlay);
    }
  }

  lemma {:induction false} OthersAgree(a: seq<string>, b: seq<string>, overlay: map<string, string>)
    requires |a| == |b|
    requires forall i :: 0 <= i < |a| ==> (Kept(a[i], overlay) <==> Kept(b[i], overlay)) && (Kept(a[i], overlay) ==> a[i] == b[i])
    ensures Others(a, overlay) == Others(b, overlay)
  {
    if a != [] {
      var n := |a| - 1;
      OthersAgree(a[..n], b[..n], overlay);
      assert Kept(a[n], overlay) <==> Kept(b[n], overlay);
    }
  }

  lemma {:induction false} NoOthers(lines: seq<string>, overlay: map<string, string>)
    requires forall i :: 0 <= i < |lines| ==> !Kept(lines[i], overlay)
    ensures Others(lines, overlay) == []
  {
    if lines != [] { NoOthers(lines[..|lines| - 1], overlay); }
  }

  /** Every line that is not a setting of an overridden key is still there, unchanged and in order. */
  lemma OthersAreKept(lines: seq<string>, overrides: seq<Setting>, secret: nat -> string)
    requires OverridesOk(overrides) && SecretsOk(secret)
    ensures Others(Output(lines, false, overrides, secret), Overlay(overrides)) == Others(lines, Overlay(overrides))
  {
    var overlay := Overlay(overrides);
    var body, unseen := RewrittenAll(lines, false, overlay, secret), Unseen(overrides, Seen(lines, overlay));
    OverlayIsOk(overrides);
    forall i | 0 <= i < |lines|
      ensures (Kept(body[i], overlay) <==> Kept(lines[i], overlay)) && (Kept(body[i], overlay) ==> body[i] == lines[i])
    {
      RewrittenParses(lines[i], i, false, overlay, secret);
    }
    OthersAgree(body, lines, overlay);
    UnseenSettings(overrides, Seen(lines, overlay));
    forall i | 0 <= i < |unseen| ensures !Kept(PrintAll(unseen)[i], overlay) {
      assert unseen[i] in unseen;
      OverlayLooksUp(overrides, unseen[i]);
      PrintedParses(unseen[i]);
    }
    NoOthers(PrintAll(unseen), overlay);
    OthersConcat(body, PrintAll(unseen), overlay);
  }

  // ------------------------------------------------------------ running again

  lemma {:induction false} SeenExactly(parsed: Parsed, overlay: map<string, string>, key: string)
    ensures key in SeenIn(parsed, overlay)
        <==> key in overlay && exists i :: 0 <= i < |parsed| && parsed[i].Some? && parsed[i].value.key == key
  {
    if parsed != [] { SeenExactly(parsed[..|parsed| - 1], overlay, key); }
  }

  lemma {:induction false} UnseenHas(overrides: seq<Setting>, seen: set<string>, s: Setting)
    ensures s in Unseen(overrides, seen) <==> s in overrides && s.key !in seen
  {
    if overrides != [] {
      assert overrides == overrides[..|overrides| - 1] + [overrides[|overrides| - 1]];
      UnseenHas(overrides[..|overrides| - 1], seen, s);
    }
  }

  lemma OutputAt(lines: seq<string>, isNew: bool, overrides: seq<Setting>, secret: nat -> string, k: nat)
    requires k < |Output(lines, isNew, overrides, secret)|
    ensures k < |lines| ==> Output(lines, isNew, overrides, secret)[k] == Rewritten(lines[k], k, isNew, Overlay(overrides), secret)
    ensures k >= |lines| ==>
              var unseen := Unseen(overrides, Seen(lines, Overlay(overrides)));
              k - |lines| < |unseen| && Output(lines, isNew, overrides, secret)[k] == Print(unseen[k - |lines|])
  {
  }

  lemma OutputLength(lines: seq<string>, isNew: bool, overrides: seq<Setting>, secret: nat -> string)
    ensures |Output(lines, isNew, overrides, secret)| == |lines| + |Unseen(overrides, Seen(lines, Overlay(overrides)))|
  {
  }

  /** A line that set an overridden key sets the override. */
  lemma SetInPlace(lines: seq<string>, isNew: bool, overrides: seq<Setting>, secret: nat -> string, s: Setting) returns (i: nat)
    requires OverridesOk(overrides) && SecretsOk(secret) && s in overrides && s.key in Seen(lines, Overlay(overrides))
    ensures i < |Output(lines, isNew, overrides, secret)| && Parse(Output(lines, isNew, overrides, secret)[i]) == Some(s)
  {
    var overlay := Overlay(overrides);
    OverlayIsOk(overrides);
    OverlayLooksUp(overrides, s);
    SeenExactly(ParseAll(lines), overlay, s.key);
    i :| 0 <= i < |lines| && ParseAll(lines)[i].Some? && ParseAll(lines)[i].value.key == s.key;
    OutputLength(lines, isNew, overrides, secret);
    OutputAt(lines, isNew, overrides, secret, i);
    RewrittenParses(lines[i], i, isNew, overlay, secret);
  }

  /** An override that no line set is set at the end. */
  lemma SetAtEnd(lines: seq<string>, isNew: bool, overrides: seq<Setting>, secret: nat -> string, s: Setting) returns (i: nat)
    requires OverridesOk(overrides) && s in overrides && s.key !in Seen(lines, Overlay(overrides))
    ensures i < |Output(lines, isNew, overrides, secret)| && Parse(Output(lines, isNew, overrides, secret)[i]) == Some(s)
  {
    var unseen := Unseen(overrides, Seen(lines, Overlay(overrides)));
    UnseenHas(overrides, Seen(lines, Overlay(overrides)), s);
    var j :| 0 <= j < |unseen| && unseen[j] == s;
    i := |lines| + j;
    OutputLength(lines, isNew, overrides, secret);
    OutputAt(lines, isNew, overrides, secret, i);
    PrintedParses(s);
  }

  /** Every override is set by some line of the new file. */
  lemma OverrideIsWritten(lines: seq<string>, isNew: bool, overrides: seq<Setting>, secret: nat -> string, s: Setting) returns (i: nat)
    requires OverridesOk(overrides) && SecretsOk(secret) && s in overrides
    ensures i < |Output(lines, isNew, overrides, secret)| && Parse(Output(lines, isNew, overrides, secret)[i]) == Some(s)
  {
    if s.key in Seen(lines, Overlay(overrides)) {
      i := SetInPlace(lines, isNew, overrides, secret, s);
    } else {
      i := SetAtEnd(lines, isNew, overrides, secret, s);
    }
  }

  /** After one run every override is set by some line. */
  lemma EveryOverrideIsSet(lines: seq<string>, isNew: bool, overrides: seq<Setting>, secret: nat -> string, s: Setting)
    requires OverridesOk(overrides) && SecretsOk(secret) && s in overrides
    ensures s.key in Seen(Output(lines, isNew, overrides, secret), Overlay(overrides))
  {
    var i := OverrideIsWritten(lines, isNew, overrides, secret, s);
    OverlayLooksUp(overrides, s);
    SeenExactly(ParseAll(Output(lines, isNew, overrides, secret)), Overlay(overrides), s.key);
    assert ParseAll(Output(lines, isNew, overrides, secret))[i] == Some(s);
  }

  lemma LineIsStable(line: string, i: nat, isNew: bool, overlay: map<string, string>, secret: nat -> string, j: nat, secret': nat -> string)
    requires OverlayOk(overlay) && SecretsOk(secret)
    ensures var once := Rewritten(line, i, isNew, overlay, secret); Rewritten(once, j, false, overlay, secret') == once
  {
    if Parse(line).Some? {
      RewrittenParses(line, i, isNew, overlay, secret);
      RewrittenParses(line, i, isNew, map[], secret);
    }
  }

  lemma PrintedIsStable(overrides: seq<Setting>, s: Setting, k: nat, secret: nat -> string)
    requires OverridesOk(overrides) && s in overrides
    ensures Rewritten(Print(s), k, false, Overlay(overrides), secret) == Print(s)
  {
    OverlayLooksUp(overrides, s);
    PrintedParses(s);
  }

  lemma OutputLineIsStable(lines: seq<string>, isNew: bool, overrides: seq<Setting>, secret: nat -> string,
                           k: nat, secret': nat -> string)
    requires OverridesOk(overrides) && SecretsOk(secret) && k < |Output(lines, isNew, overrides, secret)|
    ensures var line := Output(lines, isNew, overrides, secret)[k];
            Rewritten(line, k, false, Overlay(overrides), secret') == line
  {
    OutputAt(lines, isNew, overrides, secret, k);
    if k < |lines| {
      OverlayIsOk(overrides);
      LineIsStable(lines[k], k, isNew, Overlay(overrides), secret, k, secret');
    } else {
      var seen := Seen(lines, Overlay(overrides));
      var s := Unseen(overrides, seen)[k - |lines|];
      UnseenHas(overrides, seen, s);
      PrintedIsStable(overrides, s, k, secret');
    }
  }

  lemma OutputIsStable(lines: seq<string>, isNew: bool, overrides: seq<Setting>, secret: nat -> string, secret': nat -> string)
    requires OverridesOk(overrides) && SecretsOk(secret)
    ensures var output := Output(lines, isNew, overrides, secret); Output(output, false, overrides, secret') == output
  {
    var overlay := Overlay(overrides);
    var output := Output(lines, isNew, overrides, secret);
    forall s | s in overrides ensures s.key in Seen(output, overlay) {
      EveryOverrideIsSet(lines, isNew, overrides, secret, s);
    }
    NoneUnseen(overrides, Seen(output, overlay));
    forall k | 0 <= k < |output| ensures Rewritten(output[k], k, false, overlay, secret') == output[k] {
      OutputLineIsStable(lines, isNew, overrides, secret, k, secret');
    }
  }

  lemma {:induction false} NoneUnseen(overrides: seq<Setting>, seen: set<string>)
    requires forall s :: s in overrides ==> s.key in seen
    ensures Unseen(overrides, seen) == []
  {
    if overrides != [] { NoneUnseen(overrides[..|overrides| - 1], seen); }
  }

  // ------------------------------------------------------- the whole program

  lemma LineStaysOneLine(line: string, i: nat, isNew: bool, overlay: map<string, string>, secret: nat -> string)
    requires OneLine(line) && OverlayOk(overlay) && SecretsOk(secret)
    ensures OneLine(Rewritten(line, i, isNew, overlay, secret))
  {
    if Parse(line).Some? {
      ParsedIsOneLine(line);
      GeneratedIsTrimmed(Parse(line).value.key, i, secret);
      assert !IsBreak('=');
    }
  }

  lemma OutputIsLines(lines: seq<string>, isNew: bool, overrides: seq<Setting>, secret: nat -> string)
    requires (forall l :: l in lines ==> OneLine(l)) && OverridesOk(overrides) && SecretsOk(secret)
    ensures forall l :: l in Output(lines, isNew, overrides, secret) ==> OneLine(l)
  {
    var overlay := Overlay(overrides);
    var output, unseen := Output(lines, isNew, overrides, secret), Unseen(overrides, Seen(lines, overlay));
    OverlayIsOk(overrides);
    forall k | 0 <= k < |output| ensures OneLine(output[k]) {
      if k < |lines| {
        assert lines[k] in lines;
        LineStaysOneLine(lines[k], k, isNew, overlay, secret);
      } else {
        var s := unseen[k - |lines|];
        UnseenHas(overrides, Seen(lines, overlay), s);
        assert output[k] == Print(s) && !IsBreak('=');
      }
    }
  }

  /** The text that a run leaves, from the existing file or else the example. */
  function NewText(existing: Option<string>, example: string, overrides: seq<Setting>, secret: nat -> string): string {
    FileText(Output(SplitLines(existing.UnwrapOr(example)), existing.None?, overrides, secret))
  }

  lemma NewTextReadsBack(existing: Option<string>, example: string, overrides: seq<Setting>, secret: nat -> string)
    requires OverridesOk(overrides) && SecretsOk(secret)
    ensures var output := Output(SplitLines(existing.UnwrapOr(example)), existing.None?, overrides, secret);
            && SplitLines(NewText(existing, example, overrides, secret)) == (if output == [] then [""] else output)
            && Effective(SplitLines(NewText(existing, example, overrides, secret))) == Effective(output)
  {
    var lines := SplitLines(existing.UnwrapOr(example));
    OutputIsLines(lines, existing.None?, overrides, secret);
    FileReadsBack(Output(lines, existing.None?, overrides, secret));
    assert ParseAll([""]) == [None];
    assert ParseAll([]) == [];
  }

  datatype Outcome = Refused | Written(text: string, isNew: bool)

  /**
    `configure` on what the file system holds: the old text, if there is one, and
    the example of the tier.  `readable` and `writable` say whether the checks on
    the file pass before it is read and before the new one takes its place.
  */
  method Configure(existing: Option<string>, example: string, readable: bool, writable: bool,
                   tier: string, dev: bool, domain: string, email: string, secret: nat -> string)
    returns (r: Outcome)
    requires SecretsOk(secret)
    ensures r.Refused? <==> !OriginOk(domain, email) || tier !in ["lite", "pro", "max"] || !readable || !writable
    ensures r.Written? ==>
              && r.isNew == existing.None?
              && r.text == NewText(existing, example, Overrides(tier, dev, domain, email, r.isNew), secret)
    ensures r.Written? && existing.Some? ==>
              Effective(SplitLines(r.text)) == Effective(SplitLines(existing.value)) + Overlay(Overrides(tier, dev, domain, email, false))
  {
    if !OriginOk(domain, email) || tier !in ["lite", "pro", "max"] || !readable {
      return Refused;
    }
    var isNew := existing.None?;
    var overrides := Overrides(tier, dev, domain, email, isNew);
    var lines := SplitLines(existing.UnwrapOr(example));
    var output, seen := RewriteLines(lines, isNew, Overlay(overrides), secret);
    output := AppendUnseen(overrides, seen, output);
    if !writable { return Refused; }
    r := Written(FileText(output), isNew);
    AcceptedOverridesAreOk(tier, dev, domain, email, isNew);
    OutputSettings(lines, isNew, overrides, secret);
    NewTextReadsBack(existing, example, overrides, secret);
  }

  /**
    Running the installer again with the same arguments changes nothing, also
    after an installation that began without a file, and whatever secrets a
    second draw would yield.
  */
  lemma RunningAgainChangesNothing(existing: Option<string>, example: string, tier: string, dev: bool, domain: string, email: string,
                                   secret: nat -> string, secret': nat -> string)
    requires OriginOk(domain, email) && SecretsOk(secret)
    ensures var once := NewText(existing, example, Overrides(tier, dev, domain, email, existing.None?), secret);
            NewText(Some(once), example, Overrides(tier, dev, domain, email, false), secret') == once
  {
    var isNew := existing.None?;
    var first, again := Overrides(tier, dev, domain, email, isNew), Overrides(tier, dev, domain, email, false);
    var output := Output(SplitLines(existing.UnwrapOr(example)), isNew, first, secret);
    AcceptedOverridesAreOk(tier, dev, domain, email, isNew);
    NewTextReadsBack(existing, example, first, secret);
    if domain == "" {
      NothingOverridden(if output == [] then [""] else output, secret');
      assert FileText([""]) == "\n" by { assert [""][1..] == []; }
    } else {
      OutputIsStable(SplitLines(existing.UnwrapOr(example)), isNew, first, secret, secret');
      OverridesAreWritten(SplitLines(existing.UnwrapOr(example)), isNew, first, secret);
    }
  }

  lemma OverridesAreWritten(lines: seq<string>, isNew: bool, overrides: seq<Setting>, secret: nat -> string)
    requires overrides != []
    ensures Output(lines, isNew, overrides, secret) != []
  {
    if lines == [] { UnseenHas(overrides, Seen(lines, Overlay(overrides)), overrides[0]); }
  }

  lemma NothingOverridden(lines: seq<string>, secret: nat -> string)
    ensures Output(lines, false, [], secret) == lines
  {
  }

  // ------------------------------------------------------------- placeholders

  ghost predicate Unguessable(secret: nat -> string) {
    SecretsOk(secret) && forall k :: !Marked(secret(k))
  }

  /** A new installation is left with no placeholder, except in a setting that the origin overrides. */
  lemma NoPlaceholderIsLeft(lines: seq<string>, overrides: seq<Setting>, secret: nat -> string, i: nat)
    requires OverridesOk(overrides) && Unguessable(secret) && i < |Output(lines, true, overrides, secret)|
    ensures var s := Parse(Output(lines, true, overrides, secret)[i]);
            s.Some? && Marked(s.value.value) ==> s.value in overrides
  {
    OutputAt(lines, true, overrides, secret, i);
    if i >= |lines| {
      var unseen := Unseen(overrides, Seen(lines, Overlay(overrides)));
      UnseenHas(overrides, Seen(lines, Overlay(overrides)), unseen[i - |lines|]);
      PrintedParses(unseen[i - |lines|]);
    } else {
      OverlayIsOk(overrides);
      PlaceholderIsReplaced(lines[i], i, Overlay(overrides), secret);
      var s := Parse(Rewritten(lines[i], i, true, Overlay(overrides), secret));
      if s.Some? { OverlayLooksUp(overrides, s.value); }
    }
  }

  ghost predicate KeepsPlaceholder(lines: seq<string>) {
    exists i :: 0 <= i < |lines| && Parse(lines[i]).Some? && Marked(Parse(lines[i]).value.value)
  }

  /** Secrets of which no two are equal and none looks like a name and a password. */
  ghost predicate Independent(secret: nat -> string) {
    && SecretsOk(secret) && (forall i :: ':' !in secret(i))
    && forall i, j :: secret(i) == secret(j) ==> i == j
  }

  /** A line whose placeholder the installer replaces by a secret. */
  ghost predicate AsksForSecret(line: string, overrides: seq<Setting>) {
    Parse(line).Some? && Marked(Parse(line).value.value) && Parse(line).value.key !in Overlay(overrides)
  }

  lemma SecretLine(lines: seq<string>, overrides: seq<Setting>, secret: nat -> string, i: nat)
    requires OverridesOk(overrides) && SecretsOk(secret) && i < |lines| && AsksForSecret(lines[i], overrides)
    ensures i < |Output(lines, true, overrides, secret)|
    ensures var key := Parse(lines[i]).value.key;
            Parse(Output(lines, true, overrides, secret)[i]) == Some(Setting(key, Generated(key, i, secret)))
  {
    OutputLength(lines, true, overrides, secret);
    OutputAt(lines, true, overrides, secret, i);
    ParsedIsPrintable(lines[i]);
    var key := Parse(lines[i]).value.key;
    GeneratedIsTrimmed(key, i, secret);
    PrintedParses(Setting(key, Generated(key, i, secret)));
  }

  lemma GeneratedIsDistinct(key: string, i: nat, key': string, j: nat, secret: nat -> string)
    requires Independent(secret) && i != j
    ensures Generated(key, i, secret) != Generated(key', j, secret)
  {
    var a, b := "admin:" + secret(i), "admin:" + secret(j);
    assert a[|"admin:"|..] == secret(i) && b[|"admin:"|..] == secret(j);
    assert a[5] == ':' && b[5] == ':';
  }

  /** In a new file no two generated settings share a value. */
  lemma SecretsAreDistinct(lines: seq<string>, overrides: seq<Setting>, secret: nat -> string, i: nat, j: nat)
    requires OverridesOk(overrides) && Independent(secret) && i < j < |lines|
    requires AsksForSecret(lines[i], overrides) && AsksForSecret(lines[j], overrides)
    ensures var output := Output(lines, true, overrides, secret);
            && j < |output| && Parse(output[i]).Some? && Parse(output[j]).Some?
            && Parse(output[i]).value.key == Parse(lines[i]).value.key
            && Parse(output[i]).value.value != Parse(output[j]).value.value
  {
    SecretLine(lines, overrides, secret, i);
    SecretLine(lines, overrides, secret, j);
    GeneratedIsDistinct(Parse(lines[i]).value.key, i, Parse(lines[j]).value.key, j, secret);
  }

  /** A new file keeps a placeholder if and only if some override is one. */
  lemma PlaceholderSurvives(lines: seq<string>, overrides: seq<Setting>, secret: nat -> string)
    requires OverridesOk(overrides) && Unguessable(secret)
    ensures KeepsPlaceholder(Output(lines, true, overrides, secret)) <==> SomeMarked(overrides)
  {
    var output := Output(lines, true, overrides, secret);
    if i :| 0 <= i < |output| && Parse(output[i]).Some? && Marked(Parse(output[i]).value.value) {
      NoPlaceholderIsLeft(lines, overrides, secret, i);
    }
    if s :| s in overrides && Marked(s.value) {
      var i := OverrideIsWritten(lines, true, overrides, secret, s);
      assert Parse(output[i]).Some? && Marked(Parse(output[i]).value.value);
    }
  }

  /** In terms of the origin: a new installation keeps a placeholder if and only if the e-mail address contains one. */
  lemma OnlyEmailKeepsPlaceholder(example: string, tier: string, dev: bool, domain: string, email: string, secret: nat -> string)
    requires OriginOk(domain, email) && Unguessable(secret)
    ensures KeepsPlaceholder(Output(SplitLines(example), true, Overrides(tier, dev, domain, email, true), secret)) <==> Marked(email)
  {
    AcceptedOverridesAreOk(tier, dev, domain, email, true);
    PlaceholderSurvives(SplitLines(example), Overrides(tier, dev, domain, email, true), secret);
    OriginMarks(tier, dev, domain, email, true);
  }

  /** And such an address is accepted. */
  lemma MarkedEmailIsAccepted(example: string, tier: string, dev: bool, secret: nat -> string)
    requires Unguessable(secret)
    ensures OriginOk("x.org", PLACEHOLDER + "@" + "x.org")
    ensures KeepsPlaceholder(Output(SplitLines(example), true, Overrides(tier, dev, "x.org", PLACEHOLDER + "@" + "x.org", true), secret))
  {
    MarkedEmail();
    OnlyEmailKeepsPlaceholder(example, tier, dev, "x.org", PLACEHOLDER + "@" + "x.org", secret);
  }

  lemma PlaceholderIsReplaced(line: string, i: nat, overlay: map<string, string>, secret: nat -> string)
    requires OverlayOk(overlay) && SecretsOk(secret) && !Marked(secret(i))
    ensures var s := Parse(Rewritten(line, i, true, overlay, secret));
            s.Some? && Marked(s.value.value) ==> s.value.key in overlay && overlay[s.value.key] == s.value.value
  {
    if Parse(line).Some? {
      var key := Parse(line).value.key;
      RewrittenParses(line, i, true, overlay, secret);
      if key !in overlay && Marked(Parse(line).value.value) {
        ParsedIsPrintable(line);
        GeneratedIsTrimmed(key, i, secret);
        PrintedParses(Setting(key, Generated(key, i, secret)));
        PrefixIsUnmarked(secret(i));
      }
    }
  }

  lemma PrefixIsUnmarked(value: string)
    requires !Marked(value)
    ensures !Marked("admin:" + value)
  {
    var whole := "admin:" + value;
    forall i | 0 <= i <= |whole| ensures !(PLACEHOLDER <= whole[i..]) {
      if i < 6 {
        assert i < |whole| ==> whole[i] != '_' && whole[i..][0] == whole[i];
      } else {
        assert whole[i..] == value[i - 6..];
      }
    }
  }
}
