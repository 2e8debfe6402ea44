/** The redacted view of the configuration and what saving an edited copy does to credentials:
    `isSecretConfigKey`, `redactUnifiedDocument`, `mergeRedactedSecrets` and
    `preserveVaultManagedSecrets` of dashboard/config.go. */
module Vault {
  import opened Text
  import opened Ini
  import opened IniPrinter

  const REDACTED: string := "[REDACTED]"

  predicate IsSecretKey(section: string, key: string) {
    var s, k := ToLower(section), ToLower(key);
    || (s == "dashboard" && k in ["owner_token", "operator_token", "viewer_token", "metrics_token", "totp_secret"])
    || (s == "companion" && k == "default_secret")
    || (s == "session_core" && k == "internal_token")
    || (s == "discord" && (k == "webhook_url" || k == "bot_token"))
    || (HasPrefix(s, "backend.") && k == "companion_secret")
  }

  predicate IsEnvReference(v: string) {
    HasPrefix(ToLower(Trim(v)), "env:")
  }

  /** A credential stored as text in the file: the view must not show it. */
  predicate IsRawSecret(section: string, key: string, v: string) {
    IsSecretKey(section, key) && v != "" && !IsEnvReference(v)
  }

  /** A Go map read: the empty string when the key is missing. */
  function Lookup(m: Section, k: string): string {
    if k in m then m[k] else ""
  }

  function Get(d: Document, s: string, k: string): string {
    if s in d then Lookup(d[s], k) else ""
  }

  function Shown(s: string, k: string, v: string): string {
    if IsRawSecret(s, k, v) then REDACTED else v
  }

  function RedactSection(s: string, m: Section): Section {
    map k | k in m :: Shown(s, k, m[k])
  }

  function Redact(d: Document): Document {
    map s | s in d :: RedactSection(s, d[s])
  }

  /** A marker left in place stands for the current value. */
  function Unmasked(s: string, k: string, v: string, current: Document): string {
    if v == REDACTED && IsSecretKey(s, k) && s in current then Lookup(current[s], k) else v
  }

  function MergeSection(s: string, m: Section, current: Document): Section {
    map k | k in m :: Unmasked(s, k, m[k], current)
  }

  function Merge(candidate: Document, current: Document): Document {
    map s | s in candidate :: MergeSection(s, candidate[s], current)
  }

  function SecretsOf(s: string, m: Section): Section {
    map k | k in m && IsSecretKey(s, k) :: m[k]
  }

  function Blanked(s: string, m: Section): Section {
    map k | k in m :: if IsSecretKey(s, k) then "" else m[k]
  }

  function PreserveSection(s: string, m: Section, current: Document): Section {
    if s in current then m + SecretsOf(s, current[s]) else Blanked(s, m)
  }

  function Preserve(candidate: Document, current: Document): Document {
    map s | s in candidate :: PreserveSection(s, candidate[s], current)
  }

  /** What the editor endpoint stores for an edited text that parsed to `candidate`. */
  function Saved(candidate: Document, current: Document): Document {
    Preserve(Merge(candidate, current), current)
  }

  // ---- the loops ---------------------------------------------------------

  method RedactOne(s: string, m: Section) returns (target: Section)
    ensures target == RedactSection(s, m)
  {
    hide Shown;
    target := map[];
    var keys := m.Keys;
    while keys != {}
      invariant keys <= m.Keys
      invariant target.Keys == m.Keys - keys
      invariant forall k :: k in target ==> target[k] == Shown(s, k, m[k])
      decreases |keys|
    {
      var k :| k in keys;
      target := target[k := Shown(s, k, m[k])];
      keys := keys - {k};
    }
  }

  /** `redactUnifiedDocument`. */
  method RedactUnifiedDocument(d: Document) returns (redacted: Document)
    requires WellFormed(d)
    ensures redacted == Redact(d)
  {
    hide RedactSection, Trim, SectionOk;
    redacted := map[];
    var sections := d.Keys;
    while sections != {}
      invariant sections <= d.Keys
      invariant redacted.Keys == d.Keys - sections
      invariant forall s :: s in redacted ==> redacted[s] == RedactSection(s, d[s])
      decreases |sections|
    {
      var s :| s in sections;
      var target := RedactOne(s, d[s]);
      TrimIdentity(s);
      redacted := redacted[ToLower(Trim(s)) := target];
      sections := sections - {s};
    }
  }

  method MergeOne(s: string, m: Section, current: Document) returns (values: Section)
    ensures values == MergeSection(s, m, current)
  {
    hide IsSecretKey;
    values := m;
    var keys := m.Keys;
    while keys != {}
      invariant keys <= m.Keys
      invariant values.Keys == m.Keys
      invariant forall k :: k in m ==> values[k] == if k in keys then m[k] else Unmasked(s, k, m[k], current)
      decreases |keys|
    {
      var k :| k in keys;
      if values[k] == REDACTED && IsSecretKey(s, k) && s in current {
        values := values[k := Lookup(current[s], k)];
      }
      keys := keys - {k};
    }
  }

  /** `mergeRedactedSecrets`: the candidate is changed in place. */
  method MergeRedactedSecrets(candidate: Document, current: Document) returns (merged: Document)
    ensures merged == Merge(candidate, current)
  {
    hide MergeSection;
    merged := candidate;
    var sections := candidate.Keys;
    while sections != {}
      invariant sections <= candidate.Keys
      invariant merged.Keys == candidate.Keys
      invariant forall s :: s in candidate ==>
                  merged[s] == if s in sections then candidate[s] else MergeSection(s, candidate[s], current)
      decreases |sections|
    {
      var s :| s in sections;
      var values := MergeOne(s, merged[s], current);
      merged := merged[s := values];
      sections := sections - {s};
    }
  }

  /** `preserveVaultManagedSecrets`: first restore the credentials of surviving sections, then
      blank those of new sections. */
  method PreserveVaultManagedSecrets(candidate: Document, current: Document) returns (saved: Document)
    ensures saved == Preserve(candidate, current)
  {
    hide SecretsOf, Blanked;
    var restored := RestoreSurvivingSections(candidate, current);
    saved := BlankNewSections(restored, current);
  }

  method RestoreSurvivingSections(candidate: Document, current: Document) returns (saved: Document)
    ensures saved.Keys == candidate.Keys
    ensures forall s :: s in candidate ==>
              saved[s] == if s in current then candidate[s] + SecretsOf(s, current[s]) else candidate[s]
  {
    hide SecretsOf;
    saved := candidate;
    var sections := current.Keys;
    while sections != {}
      invariant sections <= current.Keys
      invariant saved.Keys == candidate.Keys
      invariant forall s :: s in candidate && s in current && s !in sections ==>
                  saved[s] == candidate[s] + SecretsOf(s, current[s])
      invariant forall s :: s in candidate && (s !in current || s in sections) ==> saved[s] == candidate[s]
      decreases |sections|
    {
      var s :| s in sections;
      if s in saved {
        var values := RestoreSection(s, saved[s], current[s]);
        saved := saved[s := values];
      }
      sections := sections - {s};
    }
  }

  method BlankNewSections(restored: Document, current: Document) returns (saved: Document)
    ensures saved.Keys == restored.Keys
    ensures forall s :: s in restored ==> saved[s] == if s in current then restored[s] else Blanked(s, restored[s])
  {
    hide Blanked;
    saved := restored;
    var sections := restored.Keys;
    while sections != {}
      invariant sections <= restored.Keys
      invariant saved.Keys == restored.Keys
      invariant forall s :: s in restored && s !in current && s !in sections ==> saved[s] == Blanked(s, restored[s])
      invariant forall s :: s in restored && (s in current || s in sections) ==> saved[s] == restored[s]
      decreases |sections|
    {
      var s :| s in sections;
      if s !in current {
        var values := BlankSection(s, saved[s]);
        saved := saved[s := values];
      }
      sections := sections - {s};
    }
  }

  method RestoreSection(s: string, values: Section, currentValues: Section) returns (r: Section)
    ensures r == values + SecretsOf(s, currentValues)
  {
    hide IsSecretKey;
    r := values;
    var keys := currentValues.Keys;
    while keys != {}
      invariant keys <= currentValues.Keys
      invariant r.Keys == values.Keys + set k | k in currentValues && k !in keys && IsSecretKey(s, k)
      invariant forall k :: k in currentValues && k !in keys && IsSecretKey(s, k) ==> r[k] == currentValues[k]
      invariant forall k :: (k in values && !(k in currentValues && k !in keys && IsSecretKey(s, k))
          ==> r[k] == values[k])
      decreases |keys|
    {
      var k :| k in keys;
      if IsSecretKey(s, k) {
        r := r[k := currentValues[k]];
      }
      keys := keys - {k};
    }
  }

  method BlankSection(s: string, values: Section) returns (r: Section)
    ensures r == Blanked(s, values)
  {
    hide IsSecretKey;
    r := values;
    var keys := values.Keys;
    while keys != {}
      invariant keys <= values.Keys
      invariant r.Keys == values.Keys
      invariant forall k :: k in values ==> r[k] == if k !in keys && IsSecretKey(s, k) then "" else values[k]
      decreases |keys|
    {
      var k :| k in keys;
      if IsSecretKey(s, k) {
        r := r[k := ""];
      }
      keys := keys - {k};
    }
  }

  // ---- what the editor guarantees ----------------------------------------

  /** Editing touches credentials only: sections and ordinary keys are those of the edit. */
  lemma SavedKeepsEdit(candidate: Document, current: Document)
    ensures Saved(candidate, current).Keys == candidate.Keys
    ensures forall s, k :: s in candidate && !IsSecretKey(s, k) ==>
              (k in Saved(candidate, current)[s] <==> k in candidate[s])
              && Get(Saved(candidate, current), s, k) == Get(candidate, s, k)
  {
    hide IsSecretKey;
  }

  /** For a credential of a section that survives the edit, the stored value is the current one
      exactly when the current file has that key, or the edit leaves it missing, blank or masked. */
  lemma SurvivingCredential(candidate: Document, current: Document, s: string, k: string)
    requires s in candidate && s in current && IsSecretKey(s, k)
    ensures Get(Saved(candidate, current), s, k) == Get(current, s, k)
       <==> k in current[s] || Get(candidate, s, k) in ["", REDACTED]
    ensures k in current[s] ==> k in Saved(candidate, current)[s]
  {
    hide IsSecretKey;
    assert Get(Saved(candidate, current), s, k)
        == if k in current[s] then current[s][k]
           else if k in candidate[s] then Unmasked(s, k, candidate[s][k], current) else "";
  }

  /** A section that is new in the edit starts without credentials. */
  lemma NewSectionCredential(candidate: Document, current: Document, s: string, k: string)
    requires s in candidate && s !in current && IsSecretKey(s, k)
    ensures Get(Saved(candidate, current), s, k) == ""
  {
    hide IsSecretKey;
  }

  /** An edit of the view can introduce any credential that the current file does not mention: adding
      the key to its section in the view adds it to the stored document. */
  lemma IntroducedCredential(d: Document, s: string, k: string, v: string)
    requires s in d && IsSecretKey(s, k) && k !in d[s] && v != "" && v != REDACTED
    ensures var view := Redact(d);
            Saved(view[s := view[s][k := v]], d) == d[s := d[s][k := v]] && Get(d, s, k) == ""
  {
    hide IsSecretKey, PreserveSection, MergeSection, RedactSection;
    var view := Redact(d);
    var edit := view[s := view[s][k := v]];
    var saved, want := Saved(edit, d), d[s := d[s][k := v]];
    assert saved.Keys == want.Keys;
    AddedKey(d, s, k, v);
    forall x | x in d ensures saved[x] == want[x] {
      if x != s { UneditedSection(d, x); }
    }
  }

  lemma AddedKey(d: Document, s: string, k: string, v: string)
    requires s in d && IsSecretKey(s, k) && k !in d[s] && v != REDACTED
    ensures PreserveSection(s, MergeSection(s, RedactSection(s, d[s])[k := v], d), d) == d[s][k := v]
  {
    hide IsSecretKey, IsEnvReference;
    var r := PreserveSection(s, MergeSection(s, RedactSection(s, d[s])[k := v], d), d);
    assert r.Keys == d[s][k := v].Keys;
  }

  lemma UneditedSection(d: Document, s: string)
    requires s in d
    ensures PreserveSection(s, MergeSection(s, RedactSection(s, d[s]), d), d) == d[s]
  {
    hide IsSecretKey, IsEnvReference;
    var r := PreserveSection(s, MergeSection(s, RedactSection(s, d[s]), d), d);
    assert r.Keys == d[s].Keys;
  }

  /** Saving the view unchanged, once parsed, gives the current document back. */
  lemma SavedRedacted(d: Document)
    ensures Saved(Redact(d), d) == d
  {
    hide IsSecretKey, IsEnvReference;
    var saved := Saved(Redact(d), d);
    forall s | s in d ensures saved[s] == d[s] {
      assert saved[s].Keys == d[s].Keys;
      forall k | k in d[s] ensures saved[s][k] == d[s][k] {
      }
    }
  }

  lemma SecretKeyShape(s: string, k: string)
    requires IsSecretKey(s, k)
    ensures 0 < |k| <= 16 && ToLower(k)[0] != '['
  {
    var l := ToLower(k);
    assert |l| == |k|;
  }

  lemma RedactedPair(s: string, k: string, v: string)
    requires Pair(k, v)
    ensures Pair(k, Shown(s, k, v))
  {
    if IsRawSecret(s, k, v) {
      SecretKeyShape(s, k);
      assert Trimmed(REDACTED) && '\n' !in REDACTED && |REDACTED| == 10;
    }
  }

  lemma RedactWellFormed(d: Document)
    requires WellFormed(d)
    ensures WellFormed(Redact(d))
  {
    hide Shown, Pair, SectionName;
    forall s | s in d ensures SectionName(s) && SectionOk(Redact(d)[s]) {
      forall k | k in d[s] ensures Pair(k, Redact(d)[s][k]) {
        RedactedPair(s, k, d[s][k]);
      }
    }
  }

  datatype SaveError = BadText(error: ParseError) | Invalid | NotVerified

  /** The editor endpoint: parse the text, bring the credentials back, validate, write, read back and
      compare the texts. `validate` stands for the rules on the content of a configuration. */
  ghost function SaveEdited(y: Layout, content: string, current: Document,
                            validate: Document -> bool): Result<Document, SaveError> {
    match Parse(content)
    case Err(e) => Err(BadText(e))
    case Ok(candidate) =>
      var saved := Saved(candidate, current);
      if !validate(saved) then Err(Invalid)
      else
        match Parse(Render(y, saved))
        case Err(_) => Err(NotVerified)
        case Ok(persisted) => if Render(y, persisted) == Render(y, saved) then Ok(saved) else Err(NotVerified)
  }

  /** View the configuration and save it unedited: the stored document stays what it was. The save goes
      through exactly when the document is valid and the lines of both texts fit the scanner. */
  lemma UneditedSave(y: Layout, d: Document, validate: Document -> bool)
    requires Proper(y) && WellFormed(d)
    ensures var r := SaveEdited(y, Render(y, Redact(d)), d, validate);
            && (r == Ok(d) <==> Printable(Redact(d)) && validate(d) && Printable(d))
            && (r.Ok? ==> r.value == d)
  {
    hide Parse, Render, Redact, Saved, WellFormed, Printable;
    RedactWellFormed(d);
    RoundTrip(y, Redact(d));
    SavedRedacted(d);
    RoundTrip(y, d);
  }

  /** The view does not depend on the raw credentials: documents that differ only there look alike. */
  lemma RedactHides(d: Document, e: Document)
    requires d.Keys == e.Keys
    requires forall s :: s in d ==> d[s].Keys == e[s].Keys
    requires forall s, k :: s in d && k in d[s] ==>
               d[s][k] == e[s][k] || (IsRawSecret(s, k, d[s][k]) && IsRawSecret(s, k, e[s][k]))
    ensures Redact(d) == Redact(e)
  {
    hide IsSecretKey, IsEnvReference;
    forall s | s in d ensures RedactSection(s, d[s]) == RedactSection(s, e[s]) {
    }
  }
}
