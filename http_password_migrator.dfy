/** Migration of saved HTTP passwords to the HTTPS version of a site
    (http_password_migrator.cc): once both the stored HTTP credentials and the
    HSTS verdict for the host have arrived, each credential is copied to an
    HTTPS form and, for an HSTS host, the HTTP original is removed. */
module HttpPasswordMigration {

  /** The scheme of a URL: the two this migration names, or another one. */
  datatype Scheme = Http | Https | OtherScheme(name: string)

  function SchemeName(s: Scheme): string
  {
    match s
    case Http => "http"
    case Https => "https"
    case OtherScheme(name) => name
  }

  /** A canonical GURL of a standard scheme, split into its scheme, its host
      (with any user information), its port and the rest (path, query and
      fragment). An empty `port` means that the URL names none; a canonical
      URL never names its scheme's default port. */
  datatype Url = Url(scheme: Scheme, host: string, port: string, path: string)

  /** The port canonicalisation drops for a scheme ("" when it has none). */
  function DefaultPort(scheme: Scheme): string
  {
    match scheme
    case Http => "80"
    case Https => "443"
    case OtherScheme(_) => ""
  }

  /** GURL::spec. */
  function Spec(u: Url): string
  {
    SchemeName(u.scheme) + "://" + u.host + (if u.port == "" then "" else ":" + u.port) + u.path
  }

  /** GURL::ReplaceComponents with only the scheme replaced: the URL is
      canonicalised again, so a port equal to the new scheme's default is
      dropped and the rest is kept. */
  function WithScheme(u: Url, scheme: Scheme): (r: Url)
    ensures r.scheme == scheme && r.host == u.host && r.path == u.path
    ensures r.port == (if u.port == DefaultPort(scheme) then "" else u.port)
  {
    Url(scheme, u.host, if u.port == DefaultPort(scheme) then "" else u.port, u.path)
  }

  /** The replaced URL names no default port of its new scheme, and replacing
      the scheme again by the same one changes nothing. */
  lemma WithSchemeCanonical(u: Url, scheme: Scheme)
    ensures DefaultPort(scheme) != "" ==> WithScheme(u, scheme).port != DefaultPort(scheme)
    ensures WithScheme(WithScheme(u, scheme), scheme) == WithScheme(u, scheme)
  {
  }

  /** "http://example.com:443/login" migrates to "https://example.com/login":
      the explicit port is the new scheme's default and is dropped. */
  lemma DefaultPortDropped()
    ensures Spec(WithScheme(Url(Http, "example.com", "443", "/login"), Https)) == "https://example.com/login"
  {
    var u := WithScheme(Url(Http, "example.com", "443", "/login"), Https);
    assert u == Url(Https, "example.com", "", "/login");
    assert Spec(u) == "https" + "://" + "example.com" + "" + "/login";
  }

  /** "http://example.com:8080/" keeps its port: "https://example.com:8080/". */
  lemma OtherPortKept()
    ensures Spec(WithScheme(Url(Http, "example.com", "8080", "/"), Https)) == "https://example.com:8080/"
  {
    var u := WithScheme(Url(Http, "example.com", "8080", "/"), Https);
    assert u == Url(Https, "example.com", "8080", "/");
    assert Spec(u) == "https" + "://" + "example.com" + (":" + "8080") + "/";
  }

  datatype GenerationUploadStatus = NoSignalSent | PositiveSignalSent | NegativeSignalSent | UnknownStatus

  /** autofill::PasswordForm, with the fields the migration reads or writes;
      `formData` 0 is an empty FormData, and `credentials` stands for the
      fields copied unchanged (user name, password and the rest). */
  datatype PasswordForm = PasswordForm(
    origin: Url,
    action: Url,
    signonRealm: string,
    formData: nat,
    generationUploadStatus: GenerationUploadStatus,
    skipZeroClick: bool,
    isAffiliationBasedMatch: bool,
    isPublicSuffixMatch: bool,
    credentials: nat)

  datatype MigrationMode = Move | Copy

  /** Android (affiliation-based) and public-suffix matches are not migrated. */
  predicate Ignored(f: PasswordForm)
  {
    f.isAffiliationBasedMatch || f.isPublicSuffixMatch
  }

  /** The erase / remove_if step: the forms that are migrated, in order. */
  function Migratable(forms: seq<PasswordForm>): (r: seq<PasswordForm>)
    ensures |r| <= |forms|
    ensures forall i :: 0 <= i < |r| ==> !Ignored(r[i]) && r[i] in forms
    ensures forall f :: f in forms && !Ignored(f) ==> f in r
  {
    if forms == [] then []
    else if Ignored(forms[0]) then Migratable(forms[1..])
    else [forms[0]] + Migratable(forms[1..])
  }

  /** The HTTPS form made from one HTTP form. */
  function MigratedForm(form: PasswordForm): (r: PasswordForm)
    ensures r.origin == WithScheme(form.origin, Https)
    ensures r.signonRealm == Spec(r.origin)
    ensures r.action == (if form.action.scheme == Https then form.action else r.origin)
    ensures r.formData == 0 && r.generationUploadStatus == NoSignalSent && !r.skipZeroClick
    ensures r.credentials == form.credentials
    ensures r.isAffiliationBasedMatch == form.isAffiliationBasedMatch
    ensures r.isPublicSuffixMatch == form.isPublicSuffixMatch
  {
    var origin := WithScheme(form.origin, Https);
    form.(origin := origin,
          signonRealm := Spec(origin),
          action := if form.action.scheme != Https then origin else form.action,
          formData := 0,
          generationUploadStatus := NoSignalSent,
          skipZeroClick := false)
  }

  function MigratedForms(forms: seq<PasswordForm>): (r: seq<PasswordForm>)
    ensures |r| == |forms|
    ensures forall i :: 0 <= i < |forms| ==> r[i] == MigratedForm(forms[i])
  {
    seq(|forms|, i requires 0 <= i < |forms| => MigratedForm(forms[i]))
  }

  /** Migrating an already migrated form gives it back unchanged. */
  lemma MigrationIdempotent(form: PasswordForm)
    ensures MigratedForm(MigratedForm(form)) == MigratedForm(form)
  {
  }

  /** The signon realm of a migrated form is "https://" followed by the host,
      the port unless it is 443, and the path; the action follows the
      origin unless it was already HTTPS. */
  lemma MigratedRealm(form: PasswordForm)
    ensures MigratedForm(form).signonRealm ==
            "https://" + form.origin.host + (if form.origin.port in {"", "443"} then "" else ":" + form.origin.port)
            + form.origin.path
    ensures form.action.scheme != Https ==> MigratedForm(form).action.port != "443"
  {
    var o := MigratedForm(form).origin;
    assert o.port == (if form.origin.port == "443" then "" else form.origin.port);
    assert SchemeName(o.scheme) + "://" == "https://";
  }

  class HttpPasswordMigrator {
    /** Whether a consumer waits for the migrated forms. */
    const hasConsumer: bool
    var results: seq<PasswordForm>
    var gotPasswordStoreResults: bool
    var gotHstsQueryResult: bool
    var mode: MigrationMode
    /** The forms passed to the password store's AddLogin and RemoveLogin. */
    var added: seq<PasswordForm>
    var removed: seq<PasswordForm>
    /** What the consumer received through ProcessMigratedForms, each batch. */
    var delivered: seq<seq<PasswordForm>>

    /** The constructor issues both queries; neither answer has arrived. */
    constructor(hasConsumer: bool)
      ensures this.hasConsumer == hasConsumer
      ensures !gotPasswordStoreResults && !gotHstsQueryResult
      ensures results == [] && added == [] && removed == [] && delivered == []
    {
      this.hasConsumer := hasConsumer;
      results := [];
      gotPasswordStoreResults, gotHstsQueryResult := false, false;
      mode := Copy;
      added, removed, delivered := [], [], [];
    }

    /** OnGetPasswordStoreResults: stores the HTTP credentials and processes
        them when the HSTS verdict is already known. */
    method OnGetPasswordStoreResults(storeResults: seq<PasswordForm>)
      modifies this
      ensures gotPasswordStoreResults && gotHstsQueryResult == old(gotHstsQueryResult) && mode == old(mode)
      ensures !old(gotHstsQueryResult) ==>
                results == storeResults && added == old(added) && removed == old(removed) && delivered == old(delivered)
      ensures old(gotHstsQueryResult) ==> Processed(storeResults, old(added), old(removed), old(delivered))
    {
      results := storeResults;
      gotPasswordStoreResults := true;
      if gotHstsQueryResult {
        ProcessPasswordStoreResults();
      }
    }

    /** OnHSTSQueryResult: MOVE for an HSTS host, COPY otherwise; processes
        the credentials when they are already there. */
    method OnHstsQueryResult(isHsts: bool)
      modifies this
      ensures gotHstsQueryResult && gotPasswordStoreResults == old(gotPasswordStoreResults)
      ensures mode == (if isHsts then Move else Copy)
      ensures !old(gotPasswordStoreResults) ==>
                results == old(results) && added == old(added) && removed == old(removed) && delivered == old(delivered)
      ensures old(gotPasswordStoreResults) ==> Processed(old(results), old(added), old(removed), old(delivered))
    {
      mode := if isHsts then Move else Copy;
      gotHstsQueryResult := true;
      if gotPasswordStoreResults {
        ProcessPasswordStoreResults();
      }
    }

    /** The state after processing `forms` in the current mode: every
        migratable form added as HTTPS, the originals removed only when
        moving, and the new forms handed to the consumer (or kept). */
    ghost predicate Processed(forms: seq<PasswordForm>, added0: seq<PasswordForm>, removed0: seq<PasswordForm>,
                              delivered0: seq<seq<PasswordForm>>)
      reads this
    {
      added == added0 + MigratedForms(Migratable(forms))
      && removed == removed0 + (if mode == Move then Migratable(forms) else [])
      && (hasConsumer ==> results == [] && delivered == delivered0 + [MigratedForms(Migratable(forms))])
      && (!hasConsumer ==> results == MigratedForms(Migratable(forms)) && delivered == delivered0)
    }

    /** ProcessPasswordStoreResults. */
    method ProcessPasswordStoreResults()
      modifies this`results, this`added, this`removed, this`delivered
      ensures Processed(old(results), old(added), old(removed), old(delivered))
    {
      results := Migratable(results);
      MigrateEach();
      if hasConsumer {
        delivered := delivered + [results];
        results := [];
      }
    }

    /** The loop over the surviving forms: each is added as HTTPS, removed
        when moving, and replaced in place by its HTTPS version. */
    method MigrateEach()
      modifies this`results, this`added, this`removed
      ensures results == MigratedForms(old(results))
      ensures added == old(added) + MigratedForms(old(results))
      ensures removed == old(removed) + (if mode == Move then old(results) else [])
    {
      ghost var kept := results;
      for i := 0 to |results|
        invariant results == MigratedForms(kept[..i]) + kept[i..]
        invariant added == old(added) + MigratedForms(kept[..i])
        invariant removed == old(removed) + (if mode == Move then kept[..i] else [])
      {
        MigrateStep(kept, i);
        MigrateAt(i);
        AppendAssoc(old(added), MigratedForms(kept[..i]), [MigratedForm(kept[i])]);
        AppendAssoc(old(removed), kept[..i], [kept[i]]);
      }
      assert kept[..|kept|] == kept;
    }

    /** One turn of the loop: form i is added as HTTPS, removed when moving,
        and replaced in place by its HTTPS version. */
    method MigrateAt(i: nat)
      requires i < |results|
      modifies this`results, this`added, this`removed
      ensures results == old(results)[i := MigratedForm(old(results)[i])]
      ensures added == old(added) + [MigratedForm(old(results)[i])]
      ensures removed == old(removed) + (if mode == Move then [old(results)[i]] else [])
    {
      var form := results[i];
      var newForm := MigratedForm(form);
      added := added + [newForm];
      if mode == Move {
        removed := removed + [form];
      }
      results := results[i := newForm];
    }
  }

  /** One turn of the loop, on sequences: replacing entry i of the
      half-migrated list moves the boundary by one. */
  lemma MigrateStep(kept: seq<PasswordForm>, i: nat)
    requires i < |kept|
    ensures (MigratedForms(kept[..i]) + kept[i..])[i] == kept[i]
    ensures (MigratedForms(kept[..i]) + kept[i..])[i := MigratedForm(kept[i])] == MigratedForms(kept[..i + 1]) + kept[i + 1..]
    ensures MigratedForms(kept[..i + 1]) == MigratedForms(kept[..i]) + [MigratedForm(kept[i])]
    ensures kept[..i + 1] == kept[..i] + [kept[i]]
  {
    assert kept[..i + 1] == kept[..i] + [kept[i]];
    MigratedFormsAppend(kept[..i], kept[i]);
  }

  lemma AppendAssoc<T>(a: seq<T>, b: seq<T>, c: seq<T>)
    ensures (a + b) + c == a + (b + c)
  {
  }

  lemma MigratedFormsAppend(forms: seq<PasswordForm>, f: PasswordForm)
    ensures MigratedForms(forms + [f]) == MigratedForms(forms) + [MigratedForm(f)]
  {
    assert forall i :: 0 <= i < |forms| ==> (forms + [f])[i] == forms[i];
  }
}
