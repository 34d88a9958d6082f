/** The checks that decide whether a mailbox prefix or a sign-up address is acceptable, how an
    administrator's suffix entry is normalised, and which rows the cleanup actions delete:
    `create_email` (app.py:909-933), `register` (app.py:561-572), `admin_add_email_suffix`
    (app.py:1791-1808), `cleanup_closed_tickets` (app.py:1083-1095) and `admin_cleanup_codes`
    (app.py:1696-1717). */
module Policy {

  import opened Wrappers
  import opened Text
  import opened Quota

  const UserRole := "user"
  const ProRole := "pro"

  /** The row of `SiteSettings` the policy reads. */
  datatype SiteSettings = SiteSettings(
    defaultUserMaxEmails: int, defaultProMaxEmails: int,
    minUserPrefixLength: int, minProPrefixLength: int)

  /** Minimum prefix lengths used when no settings row exists. */
  const DefaultMinUserPrefixLength := 7
  const DefaultMinProPrefixLength := 3

  /** The minimum prefix length for a role: `user` and `pro` have one (from the settings row,
      or the defaults); every other role, the owner included, has none. */
  function MinPrefixLength(role: string, settings: Option<SiteSettings>): (r: Option<int>)
    ensures r.Some? <==> role == UserRole || role == ProRole
    ensures role == UserRole && settings.None? ==> r == Some(DefaultMinUserPrefixLength)
    ensures role == ProRole && settings.None? ==> r == Some(DefaultMinProPrefixLength)
    ensures role == UserRole && settings.Some? ==> r == Some(settings.value.minUserPrefixLength)
    ensures role == ProRole && settings.Some? ==> r == Some(settings.value.minProPrefixLength)
  {
    if role == UserRole then
      Some(if settings.Some? then settings.value.minUserPrefixLength else DefaultMinUserPrefixLength)
    else if role == ProRole then
      Some(if settings.Some? then settings.value.minProPrefixLength else DefaultMinProPrefixLength)
    else None
  }

  /** The length check of `create_email`: rejected exactly when the role has a minimum and
      the prefix has fewer characters. */
  predicate PrefixLengthOk(role: string, settings: Option<SiteSettings>, prefix: string)
  {
    match MinPrefixLength(role, settings)
    case None => true
    case Some(m) => |prefix| >= m
  }

  /** One blacklist row blocks a lower-cased prefix when it equals it or when the ROW starts
      with the prefix (`LIKE 'prefix%'` on the row). */
  predicate Blocks(entry: string, prefixLower: string)
  {
    entry == prefixLower || StartsWith(entry, prefixLower)
  }

  /** The blacklist query of `create_email`: some row blocks `prefix.lower()`. */
  predicate IsBlacklisted(blacklist: seq<string>, prefix: string)
  {
    exists i :: 0 <= i < |blacklist| && Blocks(blacklist[i], Lower(prefix))
  }

  /** The equality arm adds nothing: a prefix is blacklisted exactly when some row starts with
      its lower-cased form. */
  lemma BlacklistIsRowPrefixTest(blacklist: seq<string>, prefix: string)
    ensures IsBlacklisted(blacklist, prefix)
        <==> exists i :: 0 <= i < |blacklist| && StartsWith(blacklist[i], Lower(prefix))
  {
    if IsBlacklisted(blacklist, prefix) {
      var i :| 0 <= i < |blacklist| && Blocks(blacklist[i], Lower(prefix));
      assert StartsWith(blacklist[i], Lower(prefix));
    }
  }

  /** Cutting a blocked prefix short keeps it blocked. */
  lemma ShorterPrefixStillBlocked(blacklist: seq<string>, prefix: string, shorter: string)
    requires IsBlacklisted(blacklist, prefix)
    requires StartsWith(prefix, shorter)
    ensures IsBlacklisted(blacklist, shorter)
  {
    var i :| 0 <= i < |blacklist| && Blocks(blacklist[i], Lower(prefix));
    var e, p, s := blacklist[i], Lower(prefix), Lower(shorter);
    assert p[..|s|] == s;
    assert e[..|s|] == e[..|p|][..|s|];
    assert Blocks(e, s);
  }

  /** The row is never tested as a prefix OF the user's prefix: a prefix longer than every
      row is never blocked, so extending a blacklisted word escapes the blacklist. */
  lemma LongPrefixNeverBlocked(blacklist: seq<string>, prefix: string)
    requires forall i :: 0 <= i < |blacklist| ==> |blacklist[i]| < |prefix|
    ensures !IsBlacklisted(blacklist, prefix)
  {
  }

  /** The empty prefix is blocked by any non-empty blacklist. */
  lemma EmptyPrefixBlocked(blacklist: seq<string>)
    ensures IsBlacklisted(blacklist, "") <==> blacklist != []
  {
    if blacklist != [] {
      assert Blocks(blacklist[0], Lower(""));
    }
  }

  /** The sign-up address rule: an empty list admits every address; otherwise the
      lower-cased address must end with some lower-cased suffix. */
  predicate AllowedBySuffixes(email: string, allowed: seq<string>)
  {
    allowed == [] || exists i :: 0 <= i < |allowed| && EndsWith(Lower(email), Lower(allowed[i]))
  }

  /** The suffix loop of `register`: scan the list, stop at the first matching suffix. */
  method CheckEmailSuffix(email: string, allowed: seq<string>) returns (valid: bool)
    ensures valid <==> AllowedBySuffixes(email, allowed)
  {
    if allowed == [] {
      return true;
    }
    var emailLower := Lower(email);
    valid := false;
    var i := 0;
    while i < |allowed|
      invariant 0 <= i <= |allowed|
      invariant forall j :: 0 <= j < i ==> !EndsWith(emailLower, Lower(allowed[j]))
    {
      if EndsWith(emailLower, Lower(allowed[i])) {
        valid := true;
        break;
      }
      i := i + 1;
    }
  }

  /** `suffix.strip().lower()`, rejected when empty, and given a leading `@` when missing. */
  function NormalizeSuffix(raw: string): (r: Option<string>)
    ensures r.None? <==> Strip(raw) == []
    ensures r.Some? ==> StartsWith(r.value, "@")
    // the stripped, lower-cased entry, with at most one character put in front of it
    ensures r.Some? ==> EndsWith(r.value, Lower(Strip(raw))) && |r.value| <= |Strip(raw)| + 1
    ensures r.Some? && StartsWith(Lower(Strip(raw)), "@") ==> r.value == Lower(Strip(raw))
  {
    var s := Lower(Strip(raw));
    if s == [] then None
    else if StartsWith(s, "@") then Some(s)
    else
      assert ("@" + s)[1..] == s;
      Some("@" + s)
  }

  /** The value `NormalizeSuffix` produces is trimmed and already lower-case. */
  lemma NormalizedSuffixIsNormal(raw: string)
    requires NormalizeSuffix(raw).Some?
    ensures Trimmed(NormalizeSuffix(raw).value) && Lower(NormalizeSuffix(raw).value) == NormalizeSuffix(raw).value
  {
    var t := Strip(raw);
    var s := Lower(t);
    LowerKeepsTrimmed(t);
    LowerIdempotent(t);
    if !StartsWith(s, "@") {
      var r := "@" + s;
      assert Lower(r) == r by {
        forall i | 0 <= i < |r| ensures Lower(r)[i] == r[i] {
          if i > 0 {
            assert r[i] == s[i - 1];
          }
        }
      }
    }
  }

  /** A normalised suffix is its own normal form: normalising is idempotent. */
  lemma NormalizeSuffixIdempotent(raw: string)
    requires NormalizeSuffix(raw).Some?
    ensures NormalizeSuffix(NormalizeSuffix(raw).value) == NormalizeSuffix(raw)
  {
    var r := NormalizeSuffix(raw).value;
    NormalizedSuffixIsNormal(raw);
    StripOfTrimmed(r);
    assert Lower(Strip(r)) == r;
  }

  /** Why adding a suffix is refused. */
  datatype SuffixError =
    | EmptySuffix      // 请输入邮箱后缀
    | DuplicateSuffix  // 该邮箱后缀已存在

  /** `admin_add_email_suffix` on the table of suffixes. */
  function AddEmailSuffix(table: seq<string>, raw: string): (r: Result<seq<string>, SuffixError>)
    ensures r == Err(EmptySuffix) <==> NormalizeSuffix(raw).None?
    ensures r == Err(DuplicateSuffix) <==> NormalizeSuffix(raw).Some? && NormalizeSuffix(raw).value in table
    ensures r.Ok? ==> NormalizeSuffix(raw).Some? && r.value == table + [NormalizeSuffix(raw).value]
  {
    match NormalizeSuffix(raw)
    case None => Err(EmptySuffix)
    case Some(s) => if s in table then Err(DuplicateSuffix) else Ok(table + [s])
  }

  /** Adding the same entry twice is refused the second time. */
  lemma AddSuffixTwiceRefused(table: seq<string>, raw: string)
    requires AddEmailSuffix(table, raw).Ok?
    ensures AddEmailSuffix(AddEmailSuffix(table, raw).value, raw) == Err(DuplicateSuffix)
  {
    var s := NormalizeSuffix(raw).value;
    assert (table + [s])[|table|] == s;
  }

  /** Once added, a suffix admits every sign-up address that ends with it, whatever the
      letter case of the address. */
  lemma AddedSuffixAdmits(table: seq<string>, raw: string, email: string)
    requires AddEmailSuffix(table, raw).Ok?
    requires EndsWith(Lower(email), NormalizeSuffix(raw).value)
    ensures AllowedBySuffixes(email, AddEmailSuffix(table, raw).value)
  {
    var t := AddEmailSuffix(table, raw).value;
    var s := NormalizeSuffix(raw).value;
    NormalizedSuffixIsNormal(raw);
    assert t[|table|] == s;
  }

  /** A row of the `Ticket` table, as far as the cleanup reads it. */
  datatype Ticket = Ticket(title: string, status: string, createdAt: Option<int>, closedAt: Option<int>)

  const ClosedStatus := "closed"
  const TicketRetention := 7 * SecondsPerDay
  const UsedCodeRetention := 2 * SecondsPerDay

  /** The filter of `cleanup_closed_tickets` under SQL's NULL rules: a closed ticket closed
      more than seven days ago, or with no closing time and created more than seven days ago. */
  predicate TicketPurgeable(t: Ticket, now: int)
  {
    && t.status == ClosedStatus
    && (|| (t.closedAt.Some? && t.closedAt.value < now - TicketRetention)
        || (t.closedAt.None? && t.createdAt.Some? && t.createdAt.value < now - TicketRetention))
  }

  /** `cleanup_closed_tickets`: the tickets left in the table, in their order, and how many
      were deleted. */
  function CleanupClosedTickets(tickets: seq<Ticket>, now: int): (r: (seq<Ticket>, nat))
    ensures forall t :: t in r.0 <==> t in tickets && !TicketPurgeable(t, now)
    // every surviving row is kept as often as it occurs, so the count is the number of
    // purgeable rows
    ensures forall t :: multiset(r.0)[t] == if TicketPurgeable(t, now) then 0 else multiset(tickets)[t]
    ensures r.1 == |tickets| - |r.0|
    ensures r.1 == 0 <==> forall t :: t in tickets ==> !TicketPurgeable(t, now)
  {
    if tickets == [] then ([], 0)
    else
      var rest := CleanupClosedTickets(tickets[1..], now);
      var first := tickets[0];
      assert tickets == [first] + tickets[1..];
      assert multiset(tickets) == multiset{first} + multiset(tickets[1..]);
      if TicketPurgeable(first, now) then (rest.0, rest.1 + 1)
      else
        assert multiset([first] + rest.0) == multiset{first} + multiset(rest.0);
        ([first] + rest.0, rest.1)
  }

  /** A ticket that is open, or was closed within the last seven days, survives the cleanup. */
  lemma RecentTicketsSurvive(tickets: seq<Ticket>, t: Ticket, now: int)
    requires t in tickets
    requires t.status != ClosedStatus || (t.closedAt.Some? && t.closedAt.value >= now - TicketRetention)
    ensures t in CleanupClosedTickets(tickets, now).0
  {
  }

  /** The two filters of `admin_cleanup_codes`: expired codes, and used-up codes whose last
      use is more than two days old. */
  predicate CodePurgeable(c: RedemptionCode, now: int)
    reads c
  {
    || c.IsExpired(now)
    || (c.isUsed && c.usedAt.Some? && c.usedAt.value < now - UsedCodeRetention)
  }

  /** `admin_cleanup_codes`: the codes left in the table, in their order, and how many were
      deleted (a code both expired and old enough is deleted, and counted, once). */
  function CleanupCodes(codes: seq<RedemptionCode>, now: int): (r: (seq<RedemptionCode>, nat))
    reads codes
    ensures forall c | c in r.0 :: c in codes && !CodePurgeable(c, now)
    ensures forall c | c in codes && !CodePurgeable(c, now) :: c in r.0
    // every surviving row is kept as often as it occurs, so the count is the number of
    // purgeable rows
    ensures forall c | c in codes :: multiset(r.0)[c] == if CodePurgeable(c, now) then 0 else multiset(codes)[c]
    ensures r.1 == |codes| - |r.0|
    ensures r.1 == 0 <==> forall c | c in codes :: !CodePurgeable(c, now)
  {
    if codes == [] then ([], 0)
    else
      var rest := CleanupCodes(codes[1..], now);
      var first := codes[0];
      assert codes == [first] + codes[1..];
      assert multiset(codes) == multiset{first} + multiset(codes[1..]);
      if CodePurgeable(first, now) then (rest.0, rest.1 + 1)
      else
        assert multiset([first] + rest.0) == multiset{first} + multiset(rest.0);
        ([first] + rest.0, rest.1)
  }

  /** A code still usable now, and not used up, survives the cleanup. */
  lemma UsableCodesSurvive(codes: seq<RedemptionCode>, c: RedemptionCode, now: int)
    requires c in codes && c.CanBeUsed(now) && !c.isUsed
    ensures c in CleanupCodes(codes, now).0
  {
  }
}
