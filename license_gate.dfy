/**
 * The license check every request passes through: excluded paths go straight on; any
 * other request needs a live license that validates, or it is blocked, with a 403 JSON
 * body under `/api` and a redirect to the license page elsewhere.
 */
module LicenseGate {
  import opened Wrappers
  import opened Text
  import opened Licenses
  import UriEscape

  /** Paths, in lower case, that skip the check. */
  const ExcludedPaths: seq<string> := [
    "/account/login",
    "/login",
    "/api/license/validate",
    "/api/license/activate",
    "/api/license/machine-id",
    "/license",
    "/css",
    "/js",
    "/lib",
    "/favicon.ico"
  ]

  /** `ExcludedPaths.Any(excluded => path.StartsWith(excluded))` over the lower-cased path. */
  predicate Excluded(path: string)
    ensures Excluded(path) ==> |path| >= 3 && path[0] == '/'
  {
    var lower := AsciiLower(path);
    assert forall i | 0 <= i < |ExcludedPaths| :: |ExcludedPaths[i]| >= 3 && ExcludedPaths[i][0] == '/';
    exists i | 0 <= i < |ExcludedPaths| :: StartsWith(lower, ExcludedPaths[i])
  }

  /** Lower-casing the path first changes nothing: the test already ignores case. */
  lemma ExclusionIsCaseBlind(path: string)
    ensures Excluded(path) <==> Excluded(AsciiLower(path))
  {
    assert AsciiLower(AsciiLower(path)) == AsciiLower(path);
  }

  /** The check is a plain prefix test on the lower-cased path: a longer name that merely starts like an excluded one is let through. */
  lemma ExclusionIsPrefixTest()
    ensures Excluded("/cssx") && Excluded("/licensefoo")
  {
    ExcludedBy("/cssx", 6);
    ExcludedBy("/licensefoo", 5);
  }

  /** The path is lower-cased before the test. */
  lemma ExclusionIgnoresCase()
    ensures Excluded("/LOGIN")
  {
    var e := ExcludedPaths[1];
    assert forall k | 0 <= k < |e| :: AsciiLowerChar("/LOGIN"[k]) == e[k];
    ExcludedBy("/LOGIN", 1);
  }

  /** A path whose lower-cased start spells an excluded name skips the check. */
  lemma ExcludedBy(path: string, i: nat)
    requires i < |ExcludedPaths| && |ExcludedPaths[i]| <= |path|
    requires forall k | 0 <= k < |ExcludedPaths[i]| :: AsciiLowerChar(path[k]) == ExcludedPaths[i][k]
    ensures Excluded(path)
  {
    var e := ExcludedPaths[i];
    assert AsciiLower(path)[..|e|] == e;
  }

  /** Ordinary pages, the root and the empty path are all checked. */
  lemma OrdinaryPathsAreChecked()
    ensures !Excluded("/products") && !Excluded("/") && !Excluded("")
  {
    NotExcluded("/products");
    NotExcluded("/");
    NotExcluded("");
  }

  /**
   * A path without upper-case letters is checked when its second character starts none of
   * the excluded names.
   */
  lemma NotExcluded(path: string)
    requires forall i | 0 <= i < |path| :: !('A' <= path[i] <= 'Z')
    requires |path| < 2 || path[1] !in {'a', 'l', 'c', 'j', 'f'}
    ensures !Excluded(path)
  {
    assert AsciiLower(path) == path;
    forall i | 0 <= i < |ExcludedPaths| ensures !StartsWith(path, ExcludedPaths[i]) {
      var e := ExcludedPaths[i];
      assert |e| >= 3 && e[1] in {'a', 'l', 'c', 'j', 'f'};
    }
  }

  /** `PathString.StartsWithSegments("/api")`: the segment `/api`, in any case, alone or followed by `/`. */
  predicate IsApiRequest(path: string)
    ensures IsApiRequest(path) <==>
      |path| >= 4 && path[0] == '/' && path[1] in "aA" && path[2] in "pP" && path[3] in "iI"
      && (|path| == 4 || path[4] == '/')
  {
    |path| >= 4 && EqualsIgnoreCase(path[..4], "/api") && (|path| == 4 || path[4] == '/')
  }

  /** How a blocked request is answered. */
  datatype Blocked =
    | Forbidden(message: string)         // status 403, JSON {success: false, message, licenseExpired: true}
    | RedirectTo(location: string)

  /** What the middleware does with the request. */
  datatype Decision =
    | Bypass                                                          // straight to the next handler
    | Block(response: Blocked)                                        // the next handler is not called
    | Admit(license: License, daysRemaining: int, warning: Option<string>) // the next handler, with the items set
    | Escapes                                                         // the next handler threw outside the try

  /** `RedirectToLicensePage`: a 403 JSON answer under `/api`, a redirect carrying the escaped message elsewhere. */
  function BlockWith(path: string, message: string): (r: Blocked)
    ensures IsApiRequest(path) <==> r.Forbidden?
    ensures r.Forbidden? ==> r.message == message
    ensures r.RedirectTo? ==> r.location == "/License?message=" + UriEscape.Escape(message)
  {
    if IsApiRequest(path) then Forbidden(message)
    else RedirectTo("/License?message=" + UriEscape.Escape(message))
  }

  /** The redirect's query value unescapes to the message itself. */
  lemma RedirectCarriesMessage(path: string, message: string)
    requires !IsApiRequest(path)
    ensures var loc := BlockWith(path, message).location;
      |loc| >= 17 && loc[..17] == "/License?message=" && UriEscape.Unescape(loc[17..]) == Some(message)
  {
    var loc := BlockWith(path, message).location;
    assert loc[17..] == UriEscape.Escape(message);
    UriEscape.EscapeRoundTrip(message);
  }

  const NoActiveLicense: string := "Aktif lisans bulunamadı. Lütfen lisans aktive edin."

  /** The message the catch block answers with when anything inside the try throws. */
  const ValidationError: string := "Lisans doğrulama hatası oluştu."

  /** The warning set when the license runs out within a week. */
  function ExpiryWarning(days: int): string {
    "Lisansınızın süresi " + IntToDecimal(days) + " gün içinde dolacak!"
  }

  /**
   * `InvokeAsync`: excluded paths bypass the check and change nothing; otherwise the live
   * license that expires last is validated by its key, and the request is blocked when there
   * is none or validation refuses it, and admitted with the days left and, when it runs out
   * soon, a warning. `nextThrows` says whether the next handler throws: on an excluded path
   * it is called outside the try and its exception escapes; on an admitted request it is
   * called inside the try, and the catch answers with the validation-error block.
   */
  method Invoke(service: LicenseService, path: string, now: Instant, formatDate: Instant -> string, nextThrows: bool)
    returns (d: Decision)
    requires service.Valid()
    modifies service
    ensures service.Valid() && service.nextId == old(service.nextId)
    ensures Excluded(path) ==> d == (if nextThrows then Escapes else Bypass) && service.licenses == old(service.licenses)
    ensures !Excluded(path) && old(service.GetActiveLicense(now)).None? ==>
      d == Block(BlockWith(path, NoActiveLicense)) && service.licenses == old(service.licenses)
    ensures !Excluded(path) && old(service.GetActiveLicense(now)).Some? ==>
      var active := old(service.GetActiveLicense(now)).value;
      var at := FindByKey(old(service.licenses), active.licenseKey);
      var v := Verdict(if at.Some? then Some(old(service.licenses)[at.value]) else None, now, formatDate);
      (!v.isValid ==> d == Block(BlockWith(path, v.message)))
      && (v.isValid && !nextThrows ==>
            d == Admit(active, v.daysRemaining, if v.isExpiringSoon then Some(ExpiryWarning(v.daysRemaining)) else None))
      && (v.isValid && nextThrows ==> d == Block(BlockWith(path, ValidationError)))
      && (at.Some? && old(service.licenses)[at.value].isActive ==>
            service.licenses == old(service.licenses)[at.value := old(service.licenses)[at.value].(lastChecked := Some(now))])
      && (at.None? || !old(service.licenses)[at.value].isActive ==> service.licenses == old(service.licenses))
  {
    if Excluded(path) {
      return if nextThrows then Escapes else Bypass;
    }
    var active := service.GetActiveLicense(now);
    if active.None? {
      return Block(BlockWith(path, NoActiveLicense));
    }
    var license := active.value;
    var validation := service.ValidateLicense(license.licenseKey, now, formatDate);
    if !validation.isValid {
      return Block(BlockWith(path, validation.message));
    }
    var warning := None;
    if validation.isExpiringSoon {
      warning := Some(ExpiryWarning(validation.daysRemaining));
    }
    if nextThrows {
      return Block(BlockWith(path, ValidationError));
    }
    return Admit(license, validation.daysRemaining, warning);
  }

  /**
   * With distinct keys the license the gate picks always validates, so a request that is
   * not excluded is blocked only when no license is live.
   */
  lemma GateAdmitsLive(ls: seq<License>, now: Instant, formatDate: Instant -> string, active: License)
    requires UniqueKeys(ls) && active in ls && Live(active, now)
    ensures var at := FindByKey(ls, active.licenseKey);
      at.Some? && Verdict(Some(ls[at.value]), now, formatDate).isValid
      && Verdict(Some(ls[at.value]), now, formatDate).license == Some(active.(lastChecked := Some(now)))
  {
    ActiveLicenseValidates(ls, active, now, formatDate);
  }
}
