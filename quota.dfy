/** Mailbox quotas and redemption codes: `User.get_max_emails` / `can_create_email`
    (app.py:132-147), `RedemptionCode.is_expired` / `can_be_used` (app.py:307-317) and the
    `redeem_code` handler (app.py:1829-1867), which updates a user row and a code row in place.
    Datetimes are integer seconds; `now` is the handler's `datetime.utcnow()`. */
module Quota {

  import opened Wrappers
  import opened Text

  const OwnerRole := "owner"
  /** The quota an owner gets, whatever the counters say. */
  const OwnerQuota := 999999
  /** `timedelta(days=1)` in seconds. */
  const SecondsPerDay := 86400

  /** A row of the `RegisteredEmail` table. */
  datatype EmailRecord = EmailRecord(
    address: string, password: string, prefix: string,
    domainId: int, userId: int, isDisabled: bool)

  /** `RegisteredEmail.query.filter_by(user_id=...).count()` over the table as a sequence. */
  function EmailCount(emails: seq<EmailRecord>, userId: int): (n: nat)
    ensures n <= |emails|
    ensures n == 0 <==> forall i :: 0 <= i < |emails| ==> emails[i].userId != userId
  {
    if emails == [] then 0
    else (if emails[0].userId == userId then 1 else 0) + EmailCount(emails[1..], userId)
  }

  /** Adding a row for a user raises that user's count by one and leaves the others alone. */
  lemma {:induction false} EmailCountAppend(emails: seq<EmailRecord>, e: EmailRecord, userId: int)
    ensures EmailCount(emails + [e], userId)
         == EmailCount(emails, userId) + (if e.userId == userId then 1 else 0)
  {
    if emails != [] {
      assert (emails + [e])[1..] == emails[1..] + [e];
      EmailCountAppend(emails[1..], e, userId);
    } else {
      assert [e][1..] == [];
    }
  }

  class User {
    const id: int
    var role: string
    var isVerified: bool
    var maxEmails: int
    var extraEmails: int
    var tempExtraEmails: int
    var tempExpiresAt: Option<int>

    /** A new row with the column defaults (no bonus, no extra mailboxes). */
    constructor (id: int, role: string, isVerified: bool, maxEmails: int)
      ensures this.id == id && this.role == role && this.isVerified == isVerified
      ensures this.maxEmails == maxEmails && extraEmails == 0
      ensures tempExtraEmails == 0 && tempExpiresAt == None
    {
      this.id := id;
      this.role := role;
      this.isVerified := isVerified;
      this.maxEmails := maxEmails;
      extraEmails := 0;
      tempExtraEmails := 0;
      tempExpiresAt := None;
    }

    /** The temporary bonus counts only while its expiry lies strictly in the future. */
    predicate BonusActive(now: int)
      reads this
    {
      tempExpiresAt.Some? && tempExpiresAt.value > now
    }

    /** `get_max_emails`: the owner sentinel, or base plus permanent extra plus the live bonus. */
    function GetMaxEmails(now: int): (r: int)
      reads this
      ensures role == OwnerRole ==> r == OwnerQuota
      ensures role != OwnerRole && !BonusActive(now) ==> r == maxEmails + extraEmails
      ensures role != OwnerRole && BonusActive(now) ==> r == maxEmails + extraEmails + tempExtraEmails
    {
      if role == OwnerRole then OwnerQuota
      else
        var total := maxEmails + extraEmails;
        if tempExpiresAt.Some? && tempExpiresAt.value > now then total + tempExtraEmails else total
    }

    /** `can_create_email`: the user's rows in the mailbox table are fewer than the quota. */
    predicate CanCreateEmail(emails: seq<EmailRecord>, now: int)
      reads this
    {
      EmailCount(emails, id) < GetMaxEmails(now)
    }
  }

  /** With a non-negative bonus, the quota can only shrink as time passes. */
  lemma QuotaShrinksOverTime(u: User, t1: int, t2: int)
    requires t1 <= t2 && u.tempExtraEmails >= 0
    ensures u.GetMaxEmails(t2) <= u.GetMaxEmails(t1)
  {
  }

  /** Only the user's own rows count against the quota: a row added for someone else leaves
      the answer as it was, and one added for the user takes one place of the quota. */
  lemma OnlyOwnRowsCount(u: User, emails: seq<EmailRecord>, e: EmailRecord, now: int)
    ensures e.userId != u.id ==> (u.CanCreateEmail(emails + [e], now) <==> u.CanCreateEmail(emails, now))
    ensures e.userId == u.id ==>
              (u.CanCreateEmail(emails + [e], now) <==> EmailCount(emails, u.id) + 1 < u.GetMaxEmails(now))
  {
    EmailCountAppend(emails, e, u.id);
  }

  class RedemptionCode {
    const code: string
    const extraEmails: int
    const durationDays: Option<int>
    const isPermanent: bool
    const maxUses: int
    const expiresAt: Option<int>
    var isUsed: bool
    var usedCount: int
    var userId: Option<int>
    var usedAt: Option<int>

    /** A new, unused code, as `admin_create_code` stores it. */
    constructor (code: string, extraEmails: int, durationDays: Option<int>, isPermanent: bool,
                 maxUses: int, expiresAt: Option<int>)
      ensures this.code == code && this.extraEmails == extraEmails
      ensures this.durationDays == durationDays && this.isPermanent == isPermanent
      ensures this.maxUses == maxUses && this.expiresAt == expiresAt
      ensures !isUsed && usedCount == 0 && userId == None && usedAt == None
    {
      this.code := code;
      this.extraEmails := extraEmails;
      this.durationDays := durationDays;
      this.isPermanent := isPermanent;
      this.maxUses := maxUses;
      this.expiresAt := expiresAt;
      isUsed := false;
      usedCount := 0;
      userId := None;
      usedAt := None;
    }

    /** `is_expired`: an expiry is set and lies strictly in the past. */
    predicate IsExpired(now: int)
      reads this
    {
      expiresAt.Some? && expiresAt.value < now
    }

    /** An expired code stays expired. */
    lemma ExpiryIsFinal(t1: int, t2: int)
      requires IsExpired(t1) && t1 <= t2
      ensures IsExpired(t2)
    {
    }

    /** `can_be_used`: neither expired nor out of uses. */
    function CanBeUsed(now: int): (ok: bool)
      reads this
      ensures ok ==> !IsExpired(now) && (maxUses <= 0 || usedCount < maxUses)
      ensures !IsExpired(now) && maxUses <= 0 ==> ok
      ensures !IsExpired(now) && usedCount < maxUses ==> ok
    {
      if IsExpired(now) then false
      else if maxUses > 0 && usedCount >= maxUses then false
      else true
    }

    /** `if code.duration_days:` — a timed grant needs a non-zero number of days. */
    predicate IsTimed()
      reads this
    {
      durationDays.Some? && durationDays.value != 0
    }
  }

  function Max(a: int, b: int): int { if a >= b then a else b }

  /** How `redeem_code` changes the user's counters: a permanent code adds to the permanent
      extra; a timed code adds to a live bonus and pushes its expiry to the later of the old
      one and `now + days`, or else replaces both bonus and expiry; any other code grants
      nothing. */
  twostate predicate Granted(user: User, code: RedemptionCode, now: int)
    reads user, code
  {
    if code.isPermanent then
      && user.extraEmails == old(user.extraEmails) + code.extraEmails
      && user.tempExtraEmails == old(user.tempExtraEmails)
      && user.tempExpiresAt == old(user.tempExpiresAt)
    else if code.IsTimed() then
      var until := now + code.durationDays.value * SecondsPerDay;
      && user.extraEmails == old(user.extraEmails)
      && (if old(user.BonusActive(now)) then
            && user.tempExtraEmails == old(user.tempExtraEmails) + code.extraEmails
            && user.tempExpiresAt == Some(Max(old(user.tempExpiresAt).value, until))
          else
            && user.tempExtraEmails == code.extraEmails
            && user.tempExpiresAt == Some(until))
    else
      && user.extraEmails == old(user.extraEmails)
      && user.tempExtraEmails == old(user.tempExtraEmails)
      && user.tempExpiresAt == old(user.tempExpiresAt)
  }

  /** How `redeem_code` changes the code row: one more use, used up when a positive cap is
      reached, and stamped with the redeeming user and the time. */
  twostate predicate Consumed(user: User, code: RedemptionCode, now: int)
    reads user, code
  {
    && code.usedCount == old(code.usedCount) + 1
    && code.isUsed == (old(code.isUsed) || (code.maxUses > 0 && code.usedCount >= code.maxUses))
    && code.userId == Some(user.id)
    && code.usedAt == Some(now)
  }

  /** The part of `redeem_code` that runs once the code has passed its checks: credit the
      user, then consume the code. */
  method ApplyCode(user: User, code: RedemptionCode, now: int)
    modifies user`extraEmails, user`tempExtraEmails, user`tempExpiresAt
    modifies code`usedCount, code`isUsed, code`userId, code`usedAt
    ensures Granted(user, code, now) && Consumed(user, code, now)
    // what the user gains, measured at `now`
    ensures code.extraEmails >= 0 ==> user.GetMaxEmails(now) >= old(user.GetMaxEmails(now))
    ensures user.role != OwnerRole
            && (code.isPermanent
                || (code.IsTimed() && (old(user.BonusActive(now)) || code.durationDays.value > 0)))
            ==> user.GetMaxEmails(now) == old(user.GetMaxEmails(now)) + code.extraEmails
    // a live bonus is never cut short
    ensures old(user.BonusActive(now)) ==> user.BonusActive(now)
    ensures old(user.BonusActive(now)) ==> user.tempExpiresAt.value >= old(user.tempExpiresAt).value
    // a code that could be used stays within its cap
    ensures old(code.CanBeUsed(now)) && code.maxUses > 0 ==> code.usedCount <= code.maxUses
  {
    if code.isPermanent {
      user.extraEmails := user.extraEmails + code.extraEmails;
    } else if code.durationDays.Some? && code.durationDays.value != 0 {
      var until := now + code.durationDays.value * SecondsPerDay;
      if user.tempExpiresAt.Some? && user.tempExpiresAt.value > now {
        user.tempExtraEmails := user.tempExtraEmails + code.extraEmails;
        user.tempExpiresAt := Some(Max(user.tempExpiresAt.value, until));
      } else {
        user.tempExtraEmails := code.extraEmails;
        user.tempExpiresAt := Some(until);
      }
    }
    code.usedCount := code.usedCount + 1;
    if code.maxUses > 0 && code.usedCount >= code.maxUses {
      code.isUsed := true;
    }
    code.userId := Some(user.id);
    code.usedAt := Some(now);
  }

  /** What `redeem_code` reports. */
  datatype RedeemOutcome =
    | InvalidCode      // 卡密无效
    | CodeExpired      // 该卡密已过期
    | UsesExhausted    // 该卡密已达到最大使用次数
    | Redeemed(remaining: Option<int>)  // remaining uses; None stands for 无限 (unlimited)

  /** `request.form['code'].strip().upper()`: the stripped input with each character
      upper-cased, so no whitespace at either end and no lower-case letter left. */
  function NormalizeCode(input: string): (key: string)
    ensures |key| == |Strip(input)| <= |input| && Trimmed(key)
    ensures forall i :: 0 <= i < |key| ==> key[i] == UpperChar(Strip(input)[i])
    ensures forall i :: 0 <= i < |key| ==> !IsLower(key[i])
  {
    UpperKeepsTrimmed(Strip(input));
    Upper(Strip(input))
  }

  /** A generated code (ASCII capitals and digits) is found however its letters are cased
      and whatever whitespace surrounds it when typed in. */
  lemma NormalizeCodeMatches(c: string, t: string, ws1: string, ws2: string)
    requires forall k :: 0 <= k < |c| ==> IsAsciiUpper(c[k]) || IsDigit(c[k])
    requires |t| == |c| && forall k :: 0 <= k < |t| ==> LowerChar(t[k]) == LowerChar(c[k])
    requires forall k :: 0 <= k < |ws1| ==> IsSpace(ws1[k])
    requires forall k :: 0 <= k < |ws2| ==> IsSpace(ws2[k])
    ensures NormalizeCode(ws1 + t + ws2) == c
  {
    forall k | 0 <= k < |t|
      ensures UpperChar(t[k]) == c[k] && !IsSpace(t[k])
    {
      UpperOfCaseVariant(t[k], c[k]);
    }
    StripSurrounded(ws1, t, ws2);
  }

  /** `RedemptionCode.query.filter_by(code=key).first()` over the table as a sequence. */
  function FindCode(codes: seq<RedemptionCode>, key: string): (r: Option<nat>)
    reads codes
    ensures r.None? <==> forall i :: 0 <= i < |codes| ==> codes[i].code != key
    ensures r.Some? ==> r.value < |codes| && codes[r.value].code == key
    ensures r.Some? ==> forall j :: 0 <= j < r.value ==> codes[j].code != key
  {
    if codes == [] then None
    else if codes[0].code == key then Some(0)
    else match FindCode(codes[1..], key)
      case None => None
      case Some(k) => Some(k + 1)
  }

  /** The `POST /redeem-code` handler: look the code up, reject it if unknown, expired or
      used up, otherwise credit the user and consume the code. Rejections change nothing. */
  method RedeemCode(user: User, codes: seq<RedemptionCode>, input: string, now: int)
    returns (outcome: RedeemOutcome)
    modifies user`extraEmails, user`tempExtraEmails, user`tempExpiresAt, codes
    ensures var found := FindCode(codes, NormalizeCode(input));
      && (found.None? <==> outcome == InvalidCode)
      && (found.Some? ==>
            var c := codes[found.value];
            && (outcome == CodeExpired <==> old(c.IsExpired(now)))
            && (outcome == UsesExhausted <==> !old(c.IsExpired(now)) && !old(c.CanBeUsed(now)))
            && (outcome.Redeemed? <==> old(c.CanBeUsed(now)))
            && (outcome.Redeemed? ==>
                  && Granted(user, c, now) && Consumed(user, c, now)
                  && outcome.remaining == (if c.maxUses > 0 then Some(c.maxUses - c.usedCount) else None)
                  && forall i :: 0 <= i < |codes| && codes[i] != c ==> unchanged(codes[i])))
    ensures !outcome.Redeemed? ==> unchanged(user) && forall i :: 0 <= i < |codes| ==> unchanged(codes[i])
  {
    var key := NormalizeCode(input);
    var found := FindCode(codes, key);
    if found.None? {
      return InvalidCode;
    }
    var code := codes[found.value];
    if code.IsExpired(now) {
      return CodeExpired;
    }
    if !code.CanBeUsed(now) {
      return UsesExhausted;
    }
    ApplyCode(user, code, now);
    outcome := Redeemed(if code.maxUses > 0 then Some(code.maxUses - code.usedCount) else None);
  }
}
