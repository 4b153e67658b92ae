/**
 * The license store: a list of licenses and an id counter, with validation, creation,
 * activation, extension and revocation, and the queries over the list. Instants are
 * `DateTime` ticks (100 ns) and the clock is the `now` parameter.
 */
module Licenses {
  import opened Wrappers
  import opened Text

  const TicksPerDay: int := 864_000_000_000
  /** `DateTime.MaxValue.Ticks`. */
  const MaxTicks: int := 3_155_378_975_999_999_999

  /** A `DateTime`, as its tick count. */
  type Instant = t: int | 0 <= t <= MaxTicks

  /** `t.AddDays(days)` for a whole number of days: throws when the result leaves the `DateTime` range. */
  function AddDays(t: Instant, days: int): (r: Outcome<Instant>)
    ensures r.Produced? <==> 0 <= t + days * TicksPerDay <= MaxTicks
    ensures r.Produced? ==> r.value - t == days * TicksPerDay
  {
    var u := t + days * TicksPerDay;
    if 0 <= u <= MaxTicks then Produced(u) else Throws
  }

  /** `(int)(later - earlier).TotalDays`: whole days, truncated toward zero. */
  function DaysBetween(earlier: Instant, later: Instant): (r: int)
    ensures later >= earlier ==> r >= 0 && r * TicksPerDay <= later - earlier < (r + 1) * TicksPerDay
    ensures later <= earlier ==> r <= 0 && (r - 1) * TicksPerDay < later - earlier <= r * TicksPerDay
  {
    var d := later - earlier;
    if d >= 0 then d / TicksPerDay else -((-d) / TicksPerDay)
  }

  // ---------------------------------------------------------------------------
  // Records

  datatype LicenseType = Trial | Monthly | Quarterly | Yearly | Lifetime

  /**
   * The number of days a new license of the type runs; in the enum's order (Trial = 0 up to
   * Lifetime = 4) each type runs strictly longer than the one before.
   */
  function DurationDays(t: LicenseType): (r: nat)
    ensures r >= 7
  {
    match t
    case Trial => 7
    case Monthly => 30
    case Quarterly => 90
    case Yearly => 365
    case Lifetime => 36500
  }

  datatype License = License(
    id: int, licenseKey: string, companyName: string, contactEmail: string,
    createdAt: Instant, expiresAt: Instant, isActive: bool, licenseType: LicenseType,
    maxUsers: int, notes: Option<string>, machineId: Option<string>,
    lastChecked: Option<Instant>, features: Option<string>)

  /** `new License()` constructed at `now`. */
  function FreshLicense(now: Instant): (l: License)
    ensures l.isActive && l.licenseType == Monthly && l.maxUsers == 5 && l.createdAt == now
    ensures l.licenseKey == "" && l.companyName == "" && l.contactEmail == "" && l.expiresAt == 0
    ensures l.machineId.None? && l.lastChecked.None? && l.notes.None? && l.features.None?
  {
    License(0, "", "", "", now, 0, true, Monthly, 5, None, None, None, None)
  }

  datatype LicenseValidationResult = LicenseValidationResult(
    isValid: bool, message: string, license: Option<License>,
    daysRemaining: int, isExpired: bool, isExpiringSoon: bool)

  /** `new LicenseValidationResult()`. */
  const BlankValidation: LicenseValidationResult := LicenseValidationResult(false, "", None, 0, false, false)

  datatype ActivateLicenseRequest = ActivateLicenseRequest(
    licenseKey: string, companyName: Option<string>, contactEmail: Option<string>, machineId: Option<string>)

  datatype CreateLicenseRequest = CreateLicenseRequest(
    companyName: string, contactEmail: string, licenseType: LicenseType, maxUsers: int, notes: Option<string>)

  /** A create request carrying only the two required fields. */
  function NewCreateRequest(companyName: string, contactEmail: string): (r: CreateLicenseRequest)
    ensures r.companyName == companyName && r.contactEmail == contactEmail
    ensures r.licenseType == Monthly && r.maxUsers == 5 && r.notes.None?
  {
    CreateLicenseRequest(companyName, contactEmail, Monthly, 5, None)
  }

  datatype LicenseStatistics = LicenseStatistics(
    totalLicenses: int, activeLicenses: int, expiredLicenses: int, expiringSoonLicenses: int,
    licensesByType: map<LicenseType, int>)

  // ---------------------------------------------------------------------------
  // Keys

  /**
   * `GenerateLicenseKey(prefix)`: the prefix and the first sixteen of the GUID's 32
   * upper-case hex digits, in four dash-separated groups.
   */
  function LicenseKey(prefix: string, guidHex: string): (r: string)
    requires |guidHex| >= 16
    ensures |r| == |prefix| + 20 && r[..|prefix|] == prefix
    ensures forall g | 0 <= g < 4 :: r[|prefix| + 5 * g] == '-'
  {
    prefix + "-" + guidHex[0..4] + "-" + guidHex[4..8] + "-" + guidHex[8..12] + "-" + guidHex[12..16]
  }

  /** Keys with the same prefix are equal only when the GUIDs agree on their first sixteen digits. */
  lemma LicenseKeyInjective(prefix: string, g1: string, g2: string)
    requires |g1| >= 16 && |g2| >= 16
    requires LicenseKey(prefix, g1) == LicenseKey(prefix, g2)
    ensures g1[..16] == g2[..16]
  {
    forall i | 0 <= i < 16 ensures g1[i] == g2[i] {
      LicenseKeyDigit(prefix, g1, i);
      LicenseKeyDigit(prefix, g2, i);
    }
  }

  /** The i-th GUID digit sits after the prefix, the i / 4 + 1 dashes before it and the earlier digits. */
  lemma LicenseKeyDigit(prefix: string, g: string, i: nat)
    requires |g| >= 16 && i < 16
    ensures LicenseKey(prefix, g)[|prefix| + 1 + i + i / 4] == g[i]
  {
    var k := LicenseKey(prefix, g);
    var p := |prefix|;
    if i < 4 {
      assert k[p + 1 + i] == g[0..4][i];
    } else if i < 8 {
      assert k[p + 2 + i] == g[4..8][i - 4];
    } else if i < 12 {
      assert k[p + 3 + i] == g[8..12][i - 8];
    } else {
      assert k[p + 4 + i] == g[12..16][i - 12];
    }
  }

  /** `FirstOrDefault(l => l.LicenseKey == key)`, as a position. */
  function FindByKey(ls: seq<License>, key: string): (r: Option<nat>)
    ensures r.Some? ==> r.value < |ls| && ls[r.value].licenseKey == key
    ensures r.Some? ==> forall j | 0 <= j < r.value :: ls[j].licenseKey != key
    ensures r.None? ==> forall j | 0 <= j < |ls| :: ls[j].licenseKey != key
  {
    if ls == [] then None
    else if ls[0].licenseKey == key then Some(0)
    else
      match FindByKey(ls[1..], key)
      case None => None
      case Some(i) => Some(i + 1)
  }

  predicate UniqueKeys(ls: seq<License>) {
    forall i, j | 0 <= i < j < |ls| :: ls[i].licenseKey != ls[j].licenseKey
  }

  // ---------------------------------------------------------------------------
  // Validation

  /** A license counts as in force: active and expiring after `now`. */
  predicate Live(l: License, now: Instant) {
    l.isActive && l.expiresAt > now
  }

  /**
   * The answer `ValidateLicense` gives for the license its key finds: unknown key, revoked,
   * expired (checked after revocation) or valid with the whole days left.
   */
  function Verdict(found: Option<License>, now: Instant, formatDate: Instant -> string): (r: LicenseValidationResult)
    ensures r.isValid <==> found.Some? && Live(found.value, now)
    ensures r.isExpired <==> !r.isValid
    ensures found.None? ==> r.message == "Geçersiz lisans key'i" && r.license.None?
    ensures found.Some? && !found.value.isActive ==> r.message == "Lisans devre dışı bırakılmış" && r.license == found
    ensures found.Some? && found.value.isActive ==> r.license == Some(found.value.(lastChecked := Some(now)))
  {
    match found
    case None => BlankValidation.(message := "Geçersiz lisans key'i", isExpired := true)
    case Some(l) =>
      if !l.isActive then
        BlankValidation.(message := "Lisans devre dışı bırakılmış", license := found, isExpired := true)
      else
        var checked := l.(lastChecked := Some(now));
        if l.expiresAt <= now then
          LicenseValidationResult(false, "Lisans süresi dolmuş (Bitiş: " + formatDate(l.expiresAt) + ")",
            Some(checked), 0, true, false)
        else
          var days := DaysBetween(now, l.expiresAt);
          LicenseValidationResult(true, "Lisans geçerli (" + IntToDecimal(days) + " gün kaldı)",
            Some(checked), days, false, 0 < days <= 7)
  }

  /**
   * A valid answer reports the whole days left, an invalid one none; the warning is raised
   * exactly when at least one and fewer than eight whole days are left.
   */
  lemma VerdictDays(found: Option<License>, now: Instant, formatDate: Instant -> string)
    ensures var r := Verdict(found, now, formatDate);
      (r.isValid ==> r.daysRemaining * TicksPerDay <= found.value.expiresAt - now < (r.daysRemaining + 1) * TicksPerDay)
      && (!r.isValid ==> r.daysRemaining == 0 && !r.isExpiringSoon)
      && (r.isExpiringSoon <==> r.isValid && TicksPerDay <= found.value.expiresAt - now < 8 * TicksPerDay)
  {
    var r := Verdict(found, now, formatDate);
    if r.isValid {
      var d := r.daysRemaining;
      var gap := found.value.expiresAt - now;
      assert d == DaysBetween(now, found.value.expiresAt);
      if d <= 0 {
        assert gap < TicksPerDay;
      } else if d >= 8 {
        assert gap >= 8 * TicksPerDay by {
          assert d * TicksPerDay >= 8 * TicksPerDay;
        }
      } else {
        assert gap >= TicksPerDay by {
          assert d * TicksPerDay >= TicksPerDay;
        }
        assert gap < 8 * TicksPerDay by {
          assert (d + 1) * TicksPerDay <= 8 * TicksPerDay;
        }
      }
    }
  }

  // ---------------------------------------------------------------------------
  // Filtering, counting and ordering

  function Where(ls: seq<License>, keep: License -> bool): (r: seq<License>)
    ensures forall l | l in r :: l in ls && keep(l)
    ensures forall l | l in ls && keep(l) :: l in r
    ensures |r| <= |ls|
  {
    if ls == [] then [] else (if keep(ls[0]) then [ls[0]] else []) + Where(ls[1..], keep)
  }

  function Count(ls: seq<License>, keep: License -> bool): (r: nat)
    ensures r == |Where(ls, keep)|
  {
    if ls == [] then 0 else (if keep(ls[0]) then 1 else 0) + Count(ls[1..], keep)
  }

  predicate SortedBy(ls: seq<License>, key: License -> int) {
    forall i, j | 0 <= i < j < |ls| :: key(ls[i]) <= key(ls[j])
  }

  /** Places `x` after every element whose key is not greater, so equal keys keep their order. */
  function Insert(sorted: seq<License>, x: License, key: License -> int): (r: seq<License>)
    requires SortedBy(sorted, key)
    ensures SortedBy(r, key) && multiset(r) == multiset(sorted) + multiset{x}
    ensures |r| == |sorted| + 1 && (r[0] == x || (sorted != [] && r[0] == sorted[0]))
  {
    if sorted == [] then [x]
    else if key(x) < key(sorted[0]) then
      InsertBeforeHead(sorted, x, key);
      [x] + sorted
    else
      var rest := Insert(sorted[1..], x, key);
      InsertAfterHead(sorted, x, key, rest);
      [sorted[0]] + rest
  }

  /** A key below the head's goes in front. */
  lemma InsertBeforeHead(sorted: seq<License>, x: License, key: License -> int)
    requires SortedBy(sorted, key) && sorted != [] && key(x) < key(sorted[0])
    ensures SortedBy([x] + sorted, key)
  {
    var r := [x] + sorted;
    forall i, j | 0 <= i < j < |r| ensures key(r[i]) <= key(r[j]) {
      assert r[j] == sorted[j - 1];
      if i > 0 {
        assert r[i] == sorted[i - 1];
      }
    }
  }

  /** Otherwise the head stays first and the rest is the insertion into the tail. */
  lemma InsertAfterHead(sorted: seq<License>, x: License, key: License -> int, rest: seq<License>)
    requires SortedBy(sorted, key) && sorted != [] && key(sorted[0]) <= key(x)
    requires SortedBy(rest, key) && multiset(rest) == multiset(sorted[1..]) + multiset{x}
    ensures SortedBy([sorted[0]] + rest, key)
    ensures multiset([sorted[0]] + rest) == multiset(sorted) + multiset{x}
  {
    assert sorted == [sorted[0]] + sorted[1..];
    var r := [sorted[0]] + rest;
    forall i, j | 0 <= i < j < |r| ensures key(r[i]) <= key(r[j]) {
      var y := rest[j - 1];
      assert r[j] == y;
      if i > 0 {
        assert r[i] == rest[i - 1];
      } else {
        assert y in multiset(rest);
        if y != x {
          assert y in multiset(sorted[1..]);
          var k :| 0 <= k < |sorted[1..]| && sorted[1..][k] == y;
          assert sorted[k + 1] == y;
        }
      }
    }
  }

  /** `OrderBy(key)`: a stable insertion sort. */
  function SortBy(ls: seq<License>, key: License -> int): (r: seq<License>)
    ensures SortedBy(r, key) && multiset(r) == multiset(ls) && |r| == |ls|
  {
    if ls == [] then []
    else
      assert ls == ls[..|ls| - 1] + [ls[|ls| - 1]];
      Insert(SortBy(ls[..|ls| - 1], key), ls[|ls| - 1], key)
  }

  /** Two orderings of the same licenses hold the same licenses. */
  lemma SameElements(a: seq<License>, b: seq<License>)
    requires multiset(a) == multiset(b)
    ensures forall l :: l in a <==> l in b
  {
    forall l ensures l in a <==> l in b {
      assert l in a <==> l in multiset(a);
      assert l in b <==> l in multiset(b);
    }
  }

  /** The head of a sorted non-empty list is one of its elements with the least key. */
  lemma SortedHeadIsLeast(ls: seq<License>, key: License -> int)
    requires ls != []
    ensures var r := SortBy(ls, key);
      r != [] && r[0] in ls && forall l | l in ls :: key(r[0]) <= key(l)
  {
    var r := SortBy(ls, key);
    assert r[0] in multiset(r);
    forall l | l in ls ensures key(r[0]) <= key(l) {
      assert l in multiset(ls);
      var j :| 0 <= j < |r| && r[j] == l;
    }
  }

  /** The sort key of `OrderByDescending(l => l.ExpiresAt)`. */
  function LaterFirst(l: License): int {
    -(l.expiresAt as int)
  }

  /** The count of each type over the five types adds up to the whole list. */
  function TypeTotal(byType: map<LicenseType, int>): int {
    (if Trial in byType then byType[Trial] else 0)
    + (if Monthly in byType then byType[Monthly] else 0)
    + (if Quarterly in byType then byType[Quarterly] else 0)
    + (if Yearly in byType then byType[Yearly] else 0)
    + (if Lifetime in byType then byType[Lifetime] else 0)
  }

  function OfType(t: LicenseType): License -> bool {
    (l: License) => l.licenseType == t
  }

  /** `GroupBy(l => l.Type).ToDictionary(g => g.Key, g => g.Count())`. */
  function ByType(ls: seq<License>): (m: map<LicenseType, int>)
    ensures forall t | t in m :: m[t] == Count(ls, OfType(t)) && m[t] > 0
    ensures forall l | l in ls :: l.licenseType in m
  {
    map t | t in (set l | l in ls :: l.licenseType) :: Count(ls, OfType(t))
  }

  /** The per-type counts add up to the number of licenses. */
  lemma ByTypeAddsUp(ls: seq<License>)
    ensures TypeTotal(ByType(ls)) == |ls|
  {
    TypeCountsPartition(ls);
    TypeEntry(ls, Trial);
    TypeEntry(ls, Monthly);
    TypeEntry(ls, Quarterly);
    TypeEntry(ls, Yearly);
    TypeEntry(ls, Lifetime);
  }

  /** What one type contributes to the total: its count, present in the dictionary or not. */
  lemma TypeEntry(ls: seq<License>, t: LicenseType)
    ensures (if t in ByType(ls) then ByType(ls)[t] else 0) == Count(ls, OfType(t))
  {
    if t !in ByType(ls) {
      AbsentTypeCountsNothing(ls, t);
    }
  }

  lemma AbsentTypeCountsNothing(ls: seq<License>, t: LicenseType)
    requires t !in ByType(ls)
    ensures Count(ls, OfType(t)) == 0
  {
    var m := ByType(ls);
    forall l | l in ls ensures !OfType(t)(l) {
      assert l.licenseType in m;
    }
    NoneKept(ls, OfType(t));
  }

  /** A filter that keeps none of the licenses counts nothing. */
  lemma {:induction false} NoneKept(ls: seq<License>, keep: License -> bool)
    requires forall l | l in ls :: !keep(l)
    ensures Count(ls, keep) == 0
  {
    if ls != [] {
      assert forall l | l in ls[1..] :: l in ls;
      NoneKept(ls[1..], keep);
    }
  }

  /** Every license has exactly one of the five types. */
  lemma {:induction false} TypeCountsPartition(ls: seq<License>)
    ensures Count(ls, OfType(Trial)) + Count(ls, OfType(Monthly)) + Count(ls, OfType(Quarterly))
      + Count(ls, OfType(Yearly)) + Count(ls, OfType(Lifetime)) == |ls|
  {
    if ls != [] {
      TypeCountsPartition(ls[1..]);
    }
  }

  // ---------------------------------------------------------------------------
  // The service

  class LicenseService {
    var licenses: seq<License>
    var nextId: int

    /**
     * Ids are distinct and below the counter, so the id a new license takes from the
     * counter is one no stored license has (see `CreateLicense`).
     */
    predicate Valid()
      reads this
    {
      (forall i | 0 <= i < |licenses| :: licenses[i].id < nextId)
      && (forall i, j | 0 <= i < j < |licenses| :: licenses[i].id != licenses[j].id)
    }

    /** The service over an empty list, seeded with the trial license. */
    constructor(now: Instant, guidHex: string)
      requires |guidHex| >= 16 && now + 7 * TicksPerDay <= MaxTicks
      ensures Valid() && nextId == 2
      ensures licenses == [TrialLicense(1, now, now + 7 * TicksPerDay, guidHex)]
    {
      licenses := [];
      nextId := 1;
      new;
      var threw := InitializeDefaultLicense(now, guidHex);
    }

    /**
     * Seeds a seven-day trial license when the list is empty; a clock so late that the
     * expiry leaves the `DateTime` range throws after the id was taken.
     */
    method InitializeDefaultLicense(now: Instant, guidHex: string) returns (threw: bool)
      requires Valid() && |guidHex| >= 16
      modifies this
      ensures Valid()
      ensures threw <==> old(licenses) == [] && AddDays(now, 7).Throws?
      ensures old(licenses) == [] ==> nextId == old(nextId) + 1
      ensures old(licenses) == [] && !threw ==>
        licenses == [TrialLicense(old(nextId), now, AddDays(now, 7).value, guidHex)]
      ensures old(licenses) != [] || threw ==> licenses == old(licenses)
      ensures old(licenses) != [] ==> nextId == old(nextId)
    {
      threw := false;
      if |licenses| == 0 {
        var id := nextId;
        nextId := nextId + 1;
        var expiry := AddDays(now, 7);
        if expiry.Throws? {
          return true;
        }
        licenses := licenses + [TrialLicense(id, now, expiry.value, guidHex)];
      }
    }

    /**
     * Validates a key: the answer is `Verdict` of the first license with the key, and an
     * active license has its last check set to now, expired or not.
     */
    method ValidateLicense(key: string, now: Instant, formatDate: Instant -> string) returns (r: LicenseValidationResult)
      requires Valid()
      modifies this
      ensures Valid() && nextId == old(nextId)
      ensures var at := FindByKey(old(licenses), key);
        r == Verdict(if at.Some? then Some(old(licenses)[at.value]) else None, now, formatDate)
        && (at.Some? && old(licenses)[at.value].isActive ==>
              licenses == old(licenses)[at.value := old(licenses)[at.value].(lastChecked := Some(now))])
        && (at.None? || !old(licenses)[at.value].isActive ==> licenses == old(licenses))
    {
      var at := FindByKey(licenses, key);
      if at.None? {
        return BlankValidation.(message := "Geçersiz lisans key'i", isExpired := true);
      }
      var l := licenses[at.value];
      if !l.isActive {
        return BlankValidation.(message := "Lisans devre dışı bırakılmış", license := Some(l), isExpired := true);
      }
      var isExpired := l.expiresAt <= now;
      var daysRemaining := DaysBetween(now, l.expiresAt);
      var isExpiringSoon := daysRemaining <= 7 && daysRemaining > 0;
      licenses := licenses[at.value := l.(lastChecked := Some(now))];
      var checked := licenses[at.value];
      if isExpired {
        return LicenseValidationResult(false, "Lisans süresi dolmuş (Bitiş: " + formatDate(l.expiresAt) + ")",
          Some(checked), 0, true, false);
      }
      return LicenseValidationResult(true, "Lisans geçerli (" + IntToDecimal(daysRemaining) + " gün kaldı)",
        Some(checked), daysRemaining, false, isExpiringSoon);
    }

    /** The live license expiring last (the first of those on a tie), or none. */
    function GetActiveLicense(now: Instant): (r: Option<License>)
      reads this
      ensures r.Some? <==> exists l | l in licenses :: Live(l, now)
      ensures r.Some? ==> r.value in licenses && Live(r.value, now)
      ensures r.Some? ==> forall l | l in licenses && Live(l, now) :: l.expiresAt <= r.value.expiresAt
    {
      var live := Where(licenses, (l: License) => Live(l, now));
      var ordered := SortBy(live, LaterFirst);
      if ordered == [] then
        assert |live| == 0;
        None
      else
        SortedHeadIsLeast(live, LaterFirst);
        Some(ordered[0])
    }

    /**
     * Appends an active license of the requested type, expiring its duration from now. The
     * id is taken first, so a duration that leaves the `DateTime` range uses it up and fails.
     */
    method CreateLicense(request: CreateLicenseRequest, now: Instant, guidHex: string)
      returns (success: bool, message: string, license: Option<License>)
      requires Valid() && |guidHex| >= 16
      modifies this
      ensures Valid() && nextId == old(nextId) + 1
      ensures success <==> AddDays(now, DurationDays(request.licenseType)).Produced?
      ensures !success ==> message == "Lisans oluşturulurken hata oluştu" && license.None? && licenses == old(licenses)
      ensures success ==> (message == "Lisans başarıyla oluşturuldu" && license.Some?
        && license.value == Created(request, old(nextId), now, AddDays(now, DurationDays(request.licenseType)).value, guidHex)
        && licenses == old(licenses) + [license.value])
      ensures success ==> forall i | 0 <= i < |old(licenses)| :: old(licenses)[i].id != license.value.id
    {
      var id := nextId;
      nextId := nextId + 1;
      var expiry := AddDays(now, DurationDays(request.licenseType));
      if expiry.Throws? {
        return false, "Lisans oluşturulurken hata oluştu", None;
      }
      var created := Created(request, id, now, expiry.value, guidHex);
      licenses := licenses + [created];
      return true, "Lisans başarıyla oluşturuldu", Some(created);
    }

    /**
     * Activates a key: fails for an unknown key, an expired license or one bound to another
     * machine, changing nothing; otherwise the license becomes `Activated`.
     */
    method ActivateLicense(request: ActivateLicenseRequest, now: Instant)
      returns (success: bool, message: string, license: Option<License>)
      requires Valid()
      modifies this
      ensures Valid() && nextId == old(nextId)
      ensures var at := FindByKey(old(licenses), request.licenseKey);
        (at.None? ==> !success && message == "Geçersiz lisans key'i")
        && (at.Some? && old(licenses)[at.value].expiresAt <= now ==> !success && message == "Lisans süresi dolmuş")
        && (at.Some? && old(licenses)[at.value].expiresAt > now && BoundElsewhere(old(licenses)[at.value], request) ==>
              !success && message == "Bu lisans başka bir makineye kayıtlı")
        && (success <==> at.Some? && old(licenses)[at.value].expiresAt > now && !BoundElsewhere(old(licenses)[at.value], request))
        && (success ==> (message == "Lisans başarıyla aktive edildi"
              && licenses == old(licenses)[at.value := Activated(old(licenses)[at.value], request, now)]
              && license == Some(licenses[at.value])))
      ensures !success ==> license.None? && licenses == old(licenses)
    {
      var at := FindByKey(licenses, request.licenseKey);
      if at.None? {
        return false, "Geçersiz lisans key'i", None;
      }
      var l := licenses[at.value];
      if l.expiresAt <= now {
        return false, "Lisans süresi dolmuş", None;
      }
      if !IsNullOrEmpty(l.machineId) && l.machineId != request.machineId {
        return false, "Bu lisans başka bir makineye kayıtlı", None;
      }
      if IsNullOrEmpty(l.machineId) {
        l := l.(machineId := request.machineId,
                companyName := request.companyName.GetOr(l.companyName),
                contactEmail := request.contactEmail.GetOr(l.contactEmail));
      }
      l := l.(lastChecked := Some(now), isActive := true);
      licenses := licenses[at.value := l];
      return true, "Lisans başarıyla aktive edildi", Some(l);
    }

    /** Moves the expiry of a key's license by `days`; fails for an unknown key or an expiry outside the range. */
    method ExtendLicense(key: string, days: int) returns (success: bool, message: string)
      requires Valid()
      modifies this
      ensures Valid() && nextId == old(nextId)
      ensures var at := FindByKey(old(licenses), key);
        (at.None? ==> !success && message == "Lisans bulunamadı")
        && (at.Some? && AddDays(old(licenses)[at.value].expiresAt, days).Throws? ==>
              !success && message == "Lisans uzatılırken hata oluştu")
        && (success <==> at.Some? && AddDays(old(licenses)[at.value].expiresAt, days).Produced?)
        && (success ==> (message == "Lisans süresi " + IntToDecimal(days) + " gün uzatıldı"
              && licenses == old(licenses)[at.value :=
                   old(licenses)[at.value].(expiresAt := AddDays(old(licenses)[at.value].expiresAt, days).value)]))
      ensures !success ==> licenses == old(licenses)
    {
      var at := FindByKey(licenses, key);
      if at.None? {
        return false, "Lisans bulunamadı";
      }
      var expiry := AddDays(licenses[at.value].expiresAt, days);
      if expiry.Throws? {
        return false, "Lisans uzatılırken hata oluştu";
      }
      licenses := licenses[at.value := licenses[at.value].(expiresAt := expiry.value)];
      return true, "Lisans süresi " + IntToDecimal(days) + " gün uzatıldı";
    }

    /** Deactivates a key's license and keeps it; false, changing nothing, for an unknown key. */
    method RevokeLicense(key: string) returns (ok: bool)
      requires Valid()
      modifies this
      ensures Valid() && nextId == old(nextId)
      ensures ok <==> FindByKey(old(licenses), key).Some?
      ensures ok ==> var i := FindByKey(old(licenses), key).value;
        licenses == old(licenses)[i := old(licenses)[i].(isActive := false)]
      ensures !ok ==> licenses == old(licenses)
    {
      var at := FindByKey(licenses, key);
      if at.None? {
        return false;
      }
      licenses := licenses[at.value := licenses[at.value].(isActive := false)];
      return true;
    }

    /** Every license, newest first. */
    function GetAllLicenses(): (r: seq<License>)
      reads this
      ensures multiset(r) == multiset(licenses)
      ensures forall i, j | 0 <= i < j < |r| :: r[i].createdAt >= r[j].createdAt
    {
      var ordered := SortBy(licenses, (l: License) => -(l.createdAt as int));
      assert forall i, j | 0 <= i < j < |ordered| :: -(ordered[i].createdAt as int) <= -(ordered[j].createdAt as int);
      ordered
    }

    /** The counts over the list at `now`. */
    function GetStatistics(now: Instant): (r: LicenseStatistics)
      reads this
      ensures r == Statistics(licenses, now)
    {
      Statistics(licenses, now)
    }

    /**
     * The live licenses expiring within `daysThreshold` days of now, soonest first; the
     * threshold instant itself throws when it leaves the `DateTime` range.
     */
    function GetExpiringSoonLicenses(daysThreshold: int, now: Instant): (r: Outcome<seq<License>>)
      reads this
      ensures r.Throws? <==> AddDays(now, daysThreshold).Throws?
      ensures r.Produced? ==> var limit := AddDays(now, daysThreshold).value;
        (forall l :: l in r.value <==> l in licenses && Live(l, now) && l.expiresAt <= limit)
        && (forall i, j | 0 <= i < j < |r.value| :: r.value[i].expiresAt <= r.value[j].expiresAt)
        && multiset(r.value) == multiset(Where(licenses, (l: License) => Live(l, now) && l.expiresAt <= limit))
    {
      match AddDays(now, daysThreshold)
      case Throws => Throws
      case Produced(limit) =>
        var chosen := Where(licenses, (l: License) => Live(l, now) && l.expiresAt <= limit);
        var ordered := SortBy(chosen, (l: License) => l.expiresAt);
        SameElements(ordered, chosen);
        Produced(ordered)
    }
  }

  /** The seeded trial license. */
  function TrialLicense(id: int, now: Instant, expiresAt: Instant, guidHex: string): License
    requires |guidHex| >= 16
  {
    License(id, LicenseKey("TRIAL", guidHex), "Trial User", "trial@example.com", now, expiresAt,
      true, Trial, 3, None, None, None, None)
  }

  /** The license `CreateLicense` appends. */
  function Created(request: CreateLicenseRequest, id: int, now: Instant, expiresAt: Instant, guidHex: string): License
    requires |guidHex| >= 16
  {
    License(id, LicenseKey("TSOFT", guidHex), request.companyName, request.contactEmail, now, expiresAt,
      true, request.licenseType, request.maxUsers, request.notes, None, None, None)
  }

  /** A created license runs exactly its type's duration and is live until then. */
  lemma CreatedRunsItsDuration(request: CreateLicenseRequest, id: int, now: Instant, guidHex: string, later: Instant)
    requires |guidHex| >= 16 && AddDays(now, DurationDays(request.licenseType)).Produced?
    ensures var l := Created(request, id, now, AddDays(now, DurationDays(request.licenseType)).value, guidHex);
      l.expiresAt - l.createdAt == DurationDays(request.licenseType) * TicksPerDay
      && (Live(l, later) <==> later < now + DurationDays(request.licenseType) * TicksPerDay)
      && l.licenseKey[..5] == "TSOFT"
  {
  }

  /** The license is bound to a machine other than the one asking. */
  predicate BoundElsewhere(l: License, request: ActivateLicenseRequest) {
    !IsNullOrEmpty(l.machineId) && l.machineId != request.machineId
  }

  /**
   * The license after a successful activation: on first binding it takes the machine and,
   * when given, the company and e-mail; it is then active and checked now.
   */
  function Activated(l: License, request: ActivateLicenseRequest, now: Instant): License {
    var bound :=
      if IsNullOrEmpty(l.machineId) then
        l.(machineId := request.machineId,
           companyName := request.companyName.GetOr(l.companyName),
           contactEmail := request.contactEmail.GetOr(l.contactEmail))
      else l;
    bound.(lastChecked := Some(now), isActive := true)
  }

  /**
   * Activation re-enables a revoked license, binds an unbound one to the asking machine
   * and keeps an existing binding, and leaves the expiry alone; activating again from the
   * same machine is then allowed and changes only the last check.
   */
  lemma ActivationBinds(l: License, request: ActivateLicenseRequest, now: Instant, later: Instant)
    requires !BoundElsewhere(l, request)
    ensures var a := Activated(l, request, now);
      a.isActive && a.expiresAt == l.expiresAt && a.licenseKey == l.licenseKey && a.id == l.id
      && a.machineId == (if IsNullOrEmpty(l.machineId) then request.machineId else l.machineId)
      && !BoundElsewhere(a, request)
      && Activated(a, request, later) == a.(lastChecked := Some(later))
  {
  }

  /** `GetStatistics` at `now`. */
  function Statistics(ls: seq<License>, now: Instant): (r: LicenseStatistics)
    ensures r.totalLicenses == |ls|
    ensures ls == [] ==>
      r.activeLicenses == 0 && r.expiredLicenses == 0 && r.expiringSoonLicenses == 0 && r.licensesByType == map[]
  {
    LicenseStatistics(
      |ls|,
      Count(ls, (l: License) => Live(l, now)),
      Count(ls, (l: License) => l.expiresAt <= now),
      Count(ls, (l: License) => Live(l, now) && l.expiresAt - now <= 7 * TicksPerDay),
      ByType(ls))
  }

  /**
   * One more license raises the total by one, the active count exactly when it is live, the
   * expired count exactly when it expires at or before now whatever its flag, and the
   * expiring-soon count exactly when it is live and expires within seven days.
   */
  lemma StatisticsSnoc(ls: seq<License>, l: License, now: Instant)
    ensures var before, after := Statistics(ls, now), Statistics(ls + [l], now);
      after.totalLicenses == before.totalLicenses + 1
      && after.activeLicenses == before.activeLicenses + (if l.isActive && l.expiresAt > now then 1 else 0)
      && after.expiredLicenses == before.expiredLicenses + (if l.expiresAt <= now then 1 else 0)
      && after.expiringSoonLicenses == before.expiringSoonLicenses
           + (if l.isActive && l.expiresAt > now && l.expiresAt - now <= 7 * TicksPerDay then 1 else 0)
  {
    CountSnoc(ls, l, (l: License) => Live(l, now));
    CountSnoc(ls, l, (l: License) => l.expiresAt <= now);
    CountSnoc(ls, l, (l: License) => Live(l, now) && l.expiresAt - now <= 7 * TicksPerDay);
  }

  lemma {:induction false} CountSnoc(ls: seq<License>, l: License, keep: License -> bool)
    ensures Count(ls + [l], keep) == Count(ls, keep) + (if keep(l) then 1 else 0)
  {
    if ls == [] {
      assert ls + [l] == [l];
    } else {
      assert (ls + [l])[1..] == ls[1..] + [l];
      CountSnoc(ls[1..], l, keep);
    }
  }

  /**
   * Active and expired licenses are disjoint, so together they are at most the total; the
   * expiring-soon ones are among the active ones; and the per-type counts add up to the total.
   */
  lemma {:induction false} StatisticsAddUp(ls: seq<License>, now: Instant)
    ensures var s := Statistics(ls, now);
      s.activeLicenses + s.expiredLicenses <= s.totalLicenses
      && s.expiringSoonLicenses <= s.activeLicenses
      && TypeTotal(s.licensesByType) == s.totalLicenses
  {
    CountsNest(ls, now);
    ByTypeAddsUp(ls);
  }

  lemma {:induction false} CountsNest(ls: seq<License>, now: Instant)
    ensures Count(ls, (l: License) => Live(l, now)) + Count(ls, (l: License) => l.expiresAt <= now) <= |ls|
    ensures Count(ls, (l: License) => Live(l, now) && l.expiresAt - now <= 7 * TicksPerDay) <= Count(ls, (l: License) => Live(l, now))
  {
    if ls != [] {
      CountsNest(ls[1..], now);
    }
  }

  /** With distinct keys the license `GetActiveLicense` picks validates as valid at the same instant. */
  lemma ActiveLicenseValidates(ls: seq<License>, l: License, now: Instant, formatDate: Instant -> string)
    requires UniqueKeys(ls) && l in ls && Live(l, now)
    ensures FindByKey(ls, l.licenseKey).Some? && ls[FindByKey(ls, l.licenseKey).value] == l
    ensures Verdict(Some(l), now, formatDate).isValid
  {
    var i :| 0 <= i < |ls| && ls[i] == l;
    assert ls[i].licenseKey == l.licenseKey;
  }
}
