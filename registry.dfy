/** The `create_email` handler (app.py:885-966): the checks a mailbox request passes through in
    order, then the remote provisioning, and the new row in the mailbox table exactly when
    provisioning reports success, that is, when the creation form was answered with status 200. */
module Registry {

  import opened Wrappers
  import opened Text
  import opened Password
  import opened Quota
  import opened Policy
  import opened Panel
  import opened Provision

  /** A row of the `Domain` table. */
  datatype Domain = Domain(id: int, name: string, isActive: bool)

  /** Why a request was turned down; each corresponds to one flashed message. */
  datatype Rejection =
    | NotVerified
    | WeakPassword(messages: seq<string>)
    | CaptchaFailed
    | PrefixTooShort(minimum: int)
    | QuotaReached
    | PrefixBlacklisted
    | InvalidDomain
    | AddressDisabled
    | AddressTaken
    | ProvisioningFailed(message: string)

  datatype Decision = Created(address: string) | Rejected(reason: Rejection)

  /** The `RegisteredEmail` table, which the handler appends to. */
  class Mailboxes {
    var rows: seq<EmailRecord>

    constructor ()
      ensures rows == []
    {
      rows := [];
    }
  }

  /** `Domain.query.get(id)`: the row with that key, if any. */
  function FindDomain(domains: seq<Domain>, id: int): (r: Option<nat>)
    ensures r.None? <==> forall i :: 0 <= i < |domains| ==> domains[i].id != id
    ensures r.Some? ==> r.value < |domains| && domains[r.value].id == id
  {
    FirstIndex(domains, (d: Domain) => d.id == id)
  }

  /** `RegisteredEmail.query.filter_by(email_address=...).first()`. */
  function FindAddress(rows: seq<EmailRecord>, address: string): (r: Option<nat>)
    ensures r.None? <==> forall i :: 0 <= i < |rows| ==> rows[i].address != address
    ensures r.Some? ==> r.value < |rows| && rows[r.value].address == address
    ensures r.Some? ==> forall j :: 0 <= j < r.value ==> rows[j].address != address
  {
    FirstIndex(rows, (e: EmailRecord) => e.address == address)
  }

  /** The domain row a request names, when it exists and is active. */
  predicate DomainUsable(domains: seq<Domain>, id: int)
  {
    FindDomain(domains, id).Some? && domains[FindDomain(domains, id).value].isActive
  }

  /** The local checks in the handler's order: the first one that fails, if any. */
  function Precheck(user: User, rows: seq<EmailRecord>, prefix: string, domainId: int, password: string,
                    captchaPassed: bool, settings: Option<SiteSettings>, blacklist: seq<string>,
                    domains: seq<Domain>, now: int): (r: Option<Rejection>)
    reads user
    // Each rejection is reported exactly when every earlier check passed and its own failed.
    ensures r == Some(NotVerified) <==> !user.isVerified
    ensures (r.Some? && r.value.WeakPassword?) <==> user.isVerified && !IsStrong(password)
    ensures r.Some? && r.value.WeakPassword? ==> r.value.messages == Complaints(Rules, password)
    ensures r == Some(CaptchaFailed) <==> user.isVerified && IsStrong(password) && !captchaPassed
    ensures (r.Some? && r.value.PrefixTooShort?) <==>
              user.isVerified && IsStrong(password) && captchaPassed
              && !PrefixLengthOk(user.role, settings, prefix)
    ensures r.Some? && r.value.PrefixTooShort? ==> MinPrefixLength(user.role, settings) == Some(r.value.minimum)
    ensures r == Some(QuotaReached) <==>
              user.isVerified && IsStrong(password) && captchaPassed
              && PrefixLengthOk(user.role, settings, prefix) && !user.CanCreateEmail(rows, now)
    ensures r == Some(PrefixBlacklisted) <==>
              user.isVerified && IsStrong(password) && captchaPassed
              && PrefixLengthOk(user.role, settings, prefix) && user.CanCreateEmail(rows, now)
              && IsBlacklisted(blacklist, prefix)
    ensures r == Some(InvalidDomain) <==>
              user.isVerified && IsStrong(password) && captchaPassed
              && PrefixLengthOk(user.role, settings, prefix) && user.CanCreateEmail(rows, now)
              && !IsBlacklisted(blacklist, prefix) && !DomainUsable(domains, domainId)
    ensures r == Some(AddressDisabled) <==>
              user.isVerified && IsStrong(password) && captchaPassed
              && PrefixLengthOk(user.role, settings, prefix) && user.CanCreateEmail(rows, now)
              && !IsBlacklisted(blacklist, prefix) && DomainUsable(domains, domainId)
              && var address := prefix + domains[FindDomain(domains, domainId).value].name;
                 FindAddress(rows, address).Some? && rows[FindAddress(rows, address).value].isDisabled
    ensures r == Some(AddressTaken) <==>
              user.isVerified && IsStrong(password) && captchaPassed
              && PrefixLengthOk(user.role, settings, prefix) && user.CanCreateEmail(rows, now)
              && !IsBlacklisted(blacklist, prefix) && DomainUsable(domains, domainId)
              && var address := prefix + domains[FindDomain(domains, domainId).value].name;
                 FindAddress(rows, address).Some? && !rows[FindAddress(rows, address).value].isDisabled
    ensures r.None? <==>
              user.isVerified && IsStrong(password) && captchaPassed
              && PrefixLengthOk(user.role, settings, prefix) && user.CanCreateEmail(rows, now)
              && !IsBlacklisted(blacklist, prefix) && DomainUsable(domains, domainId)
              && FindAddress(rows, prefix + domains[FindDomain(domains, domainId).value].name).None?
  {
    AcceptsExactlyStrong(password);
    if !user.isVerified then Some(NotVerified)
    else if Complaints(Rules, password) != [] then Some(WeakPassword(Complaints(Rules, password)))
    else if !captchaPassed then Some(CaptchaFailed)
    else if !PrefixLengthOk(user.role, settings, prefix) then Some(PrefixTooShort(MinPrefixLength(user.role, settings).value))
    else if !user.CanCreateEmail(rows, now) then Some(QuotaReached)
    else if IsBlacklisted(blacklist, prefix) then Some(PrefixBlacklisted)
    else if !DomainUsable(domains, domainId) then Some(InvalidDomain)
    else
      var address := prefix + domains[FindDomain(domains, domainId).value].name;
      match FindAddress(rows, address)
      case None => None
      case Some(i) => if rows[i].isDisabled then Some(AddressDisabled) else Some(AddressTaken)
  }

  /** The checks run in order: a request turned down before the blacklist lookup is turned
      down the same way whatever the blacklist and the domain table hold. */
  lemma EarlyRejectionIgnoresTables(user: User, rows: seq<EmailRecord>, prefix: string, domainId: int,
                                    password: string, captchaPassed: bool, settings: Option<SiteSettings>,
                                    blacklist: seq<string>, domains: seq<Domain>, now: int,
                                    otherBlacklist: seq<string>, otherDomains: seq<Domain>)
    requires var r := Precheck(user, rows, prefix, domainId, password, captchaPassed, settings, blacklist, domains, now);
             r.Some? && !r.value.PrefixBlacklisted? && !r.value.InvalidDomain?
             && !r.value.AddressDisabled? && !r.value.AddressTaken?
    ensures Precheck(user, rows, prefix, domainId, password, captchaPassed, settings, otherBlacklist, otherDomains, now)
         == Precheck(user, rows, prefix, domainId, password, captchaPassed, settings, blacklist, domains, now)
  {
  }

  /** The local checks of `create_email`, run one after another as the handler runs them;
      the first that fails decides the rejection. */
  method CheckRequest(user: User, rows: seq<EmailRecord>, prefix: string, domainId: int, password: string,
                      captchaPassed: bool, settings: Option<SiteSettings>, blacklist: seq<string>,
                      domains: seq<Domain>, now: int)
    returns (rejection: Option<Rejection>)
    ensures rejection == Precheck(user, rows, prefix, domainId, password, captchaPassed, settings, blacklist, domains, now)
  {
    if !user.isVerified {
      return Some(NotVerified);
    }
    var errors := ValidatePassword(password);
    if errors != [] {
      return Some(WeakPassword(errors));
    }
    if !captchaPassed {
      return Some(CaptchaFailed);
    }
    var minimum := MinPrefixLength(user.role, settings);
    if minimum.Some? && |prefix| < minimum.value {
      return Some(PrefixTooShort(minimum.value));
    }
    if !user.CanCreateEmail(rows, now) {
      return Some(QuotaReached);
    }
    if IsBlacklisted(blacklist, prefix) {
      return Some(PrefixBlacklisted);
    }
    var found := FindDomain(domains, domainId);
    if found.None? || !domains[found.value].isActive {
      return Some(InvalidDomain);
    }
    var existing := FindAddress(rows, prefix + domains[found.value].name);
    if existing.Some? {
      if rows[existing.value].isDisabled {
        return Some(AddressDisabled);
      }
      return Some(AddressTaken);
    }
    return None;
  }

  /** `create_email`: run the checks, then provision the mailbox on the panel, and record it
      exactly when provisioning reports success (a 200 answer to the creation form). No request reaches the panel unless every local
      check passed. `captchaPassed` is the reCAPTCHA verdict. */
  method CreateEmail(user: User, table: Mailboxes, prefix: string, domainId: int, password: string,
                     captchaPassed: bool, settings: Option<SiteSettings>, blacklist: seq<string>,
                     domains: seq<Domain>, account: Account, panel: Server, now: int)
    returns (decision: Decision, trace: seq<Request>)
    modifies table
    ensures var pre := Precheck(user, old(table.rows), prefix, domainId, password, captchaPassed,
                                settings, blacklist, domains, now);
            (pre.Some? ==> decision == Rejected(pre.value) && trace == [])
            && (pre.None? ==> trace != [])
    // When the checks pass, the decision is what the provisioning run reported.
    ensures var pre := Precheck(user, old(table.rows), prefix, domainId, password, captchaPassed,
                                settings, blacklist, domains, now);
            pre.None? ==>
              var d := domains[FindDomain(domains, domainId).value];
              exists outcome :: ProvisionRun(account, prefix, d.name, password, panel, outcome, trace)
                && decision == if outcome.Provisioned? then Created(outcome.email)
                               else Rejected(ProvisioningFailed(outcome.message))
    ensures decision.Created? <==>
              trace != [] && |trace| == 4 && Answer(panel, trace, 3).Received? && Page(panel, trace, 3).status == 200
    ensures decision.Created? ==>
              var d := domains[FindDomain(domains, domainId).value];
              decision.address == prefix + d.name
              && table.rows == old(table.rows) + [EmailRecord(prefix + d.name, password, prefix, domainId, user.id, false)]
    ensures !decision.Created? ==> table.rows == old(table.rows)
  {
    var rejection := CheckRequest(user, table.rows, prefix, domainId, password, captchaPassed,
                                  settings, blacklist, domains, now);
    if rejection.Some? {
      return Rejected(rejection.value), [];
    }
    var domain := domains[FindDomain(domains, domainId).value];
    var address := prefix + domain.name;
    var outcome;
    outcome, trace := ProvisionMailbox(account, prefix, domain.name, password, panel);
    if outcome.Provisioned? {
      table.rows := table.rows + [EmailRecord(address, password, prefix, domainId, user.id, false)];
      decision := Created(address);
    } else {
      decision := Rejected(ProvisioningFailed(outcome.message));
    }
  }

  /** The row added for a user who had room raises that user's count by exactly one and keeps
      it within the quota. */
  lemma CreationWithinQuota(user: User, rows: seq<EmailRecord>, record: EmailRecord, now: int)
    requires user.CanCreateEmail(rows, now)
    requires record.userId == user.id
    ensures EmailCount(rows + [record], user.id) == EmailCount(rows, user.id) + 1
    ensures EmailCount(rows + [record], user.id) <= user.GetMaxEmails(now)
  {
    EmailCountAppend(rows, record, user.id);
  }

  /** Appending only addresses the table does not hold yet keeps its addresses distinct. */
  lemma AddressesStayUnique(rows: seq<EmailRecord>, record: EmailRecord)
    requires forall i, j :: 0 <= i < j < |rows| ==> rows[i].address != rows[j].address
    requires FindAddress(rows, record.address).None?
    ensures forall i, j :: 0 <= i < j < |rows + [record]| ==> (rows + [record])[i].address != (rows + [record])[j].address
  {
  }
}
