/** `validate_password` (app.py:83-98): the password policy applied before a mailbox is
    created or its password is reset. It reports one message per broken rule, in a fixed
    order: length first, then digit, lower-case letter, upper-case letter. */
module Password {

  import opened Text

  const MinLength := 6

  const TooShortMessage := "密码至少需要6个字符"
  const NoDigitMessage := "密码至少需要包含一个数字"
  const NoLowerMessage := "密码至少需要包含一个小写字母"
  const NoUpperMessage := "密码至少需要包含一个大写字母"

  /** The four rules, in the order the source checks them. */
  datatype Rule = Length | Digit | LowerCase | UpperCase

  const Rules: seq<Rule> := [Length, Digit, LowerCase, UpperCase]

  /** `any(c.isdigit() for c in password)` and its two siblings. */
  predicate HasDigit(p: string) { exists i :: 0 <= i < |p| && IsDigit(p[i]) }
  predicate HasLower(p: string) { exists i :: 0 <= i < |p| && IsLower(p[i]) }
  predicate HasUpper(p: string) { exists i :: 0 <= i < |p| && IsUpper(p[i]) }

  /** A password every rule accepts. */
  predicate IsStrong(p: string)
  {
    |p| >= MinLength && HasDigit(p) && HasLower(p) && HasUpper(p)
  }

  predicate Violates(p: string, rule: Rule)
  {
    match rule
    case Length => |p| < MinLength
    case Digit => !HasDigit(p)
    case LowerCase => !HasLower(p)
    case UpperCase => !HasUpper(p)
  }

  function Message(rule: Rule): string
  {
    match rule
    case Length => TooShortMessage
    case Digit => NoDigitMessage
    case LowerCase => NoLowerMessage
    case UpperCase => NoUpperMessage
  }

  /** Position of a rule in the source's order. */
  function Rank(rule: Rule): nat
  {
    match rule
    case Length => 0
    case Digit => 1
    case LowerCase => 2
    case UpperCase => 3
  }

  /** Position of a message in the source's order (4 for a message no rule produces). */
  function MessageRank(m: string): nat
  {
    if m == TooShortMessage then 0
    else if m == NoDigitMessage then 1
    else if m == NoLowerMessage then 2
    else if m == NoUpperMessage then 3
    else 4
  }

  lemma MessageRankOfMessage(rule: Rule)
    ensures MessageRank(Message(rule)) == Rank(rule)
  {
  }

  /** The messages of the rules in `rules` that `p` breaks, in the order of `rules`: the
      reference definition `ValidatePassword` is proved against. */
  function Complaints(rules: seq<Rule>, p: string): (r: seq<string>)
    ensures |r| <= |rules|
  {
    if rules == [] then []
    else (if Violates(p, rules[0]) then [Message(rules[0])] else []) + Complaints(rules[1..], p)
  }

  /** Every reported message belongs to a rule of the list that the password breaks; the
      lemma names that rule's position. */
  lemma {:induction false} ComplaintSource(rules: seq<Rule>, p: string, i: nat) returns (k: nat)
    requires i < |Complaints(rules, p)|
    ensures k < |rules| && Violates(p, rules[k]) && Complaints(rules, p)[i] == Message(rules[k])
  {
    var rest := Complaints(rules[1..], p);
    if Violates(p, rules[0]) && i == 0 {
      k := 0;
    } else {
      var j := if Violates(p, rules[0]) then i - 1 else i;
      var k' := ComplaintSource(rules[1..], p, j);
      k := k' + 1;
    }
  }

  /** Distinct rules have distinct messages. */
  lemma MessageInjective(a: Rule, b: Rule)
    requires Message(a) == Message(b)
    ensures a == b
  {
  }

  /** A rule's message is reported exactly when the rule is listed and broken. */
  lemma {:induction false} ComplaintsComplete(rules: seq<Rule>, p: string, rule: Rule)
    ensures Message(rule) in Complaints(rules, p) <==> rule in rules && Violates(p, rule)
  {
    if rules != [] {
      ComplaintsComplete(rules[1..], p, rule);
      if Message(rule) == Message(rules[0]) {
        MessageInjective(rule, rules[0]);
      }
      assert rules == [rules[0]] + rules[1..];
    }
  }

  /** One step of `Complaints`: the first rule's message, if broken, then the rest. */
  lemma ComplaintsStep(rules: seq<Rule>, p: string)
    requires rules != []
    ensures Complaints(rules, p)
         == (if Violates(p, rules[0]) then [Message(rules[0])] else []) + Complaints(rules[1..], p)
  {
  }

  /** `Complaints` over the source's four rules, spelled out. */
  lemma ComplaintsOfRules(p: string)
    ensures Complaints(Rules, p)
         == (if Violates(p, Length) then [Message(Length)] else [])
          + (if Violates(p, Digit) then [Message(Digit)] else [])
          + (if Violates(p, LowerCase) then [Message(LowerCase)] else [])
          + (if Violates(p, UpperCase) then [Message(UpperCase)] else [])
  {
    var r1, r2, r3 := [Digit, LowerCase, UpperCase], [LowerCase, UpperCase], [UpperCase];
    assert Rules[1..] == r1 && r1[1..] == r2 && r2[1..] == r3 && r3[1..] == [];
    ComplaintsStep(Rules, p);
    ComplaintsStep(r1, p);
    ComplaintsStep(r2, p);
    ComplaintsStep(r3, p);
  }

  /** `validate_password`: appends one message per broken rule to an initially empty list. */
  method ValidatePassword(password: string) returns (errors: seq<string>)
    ensures errors == Complaints(Rules, password)
  {
    errors := [];
    if |password| < MinLength {
      errors := errors + [TooShortMessage];
    }
    if !HasDigit(password) {
      errors := errors + [NoDigitMessage];
    }
    if !HasLower(password) {
      errors := errors + [NoLowerMessage];
    }
    if !HasUpper(password) {
      errors := errors + [NoUpperMessage];
    }
    ComplaintsOfRules(password);
  }

  /** No complaint at all exactly when no rule of the list is broken. */
  lemma {:induction false} ComplaintsEmptyIff(rules: seq<Rule>, p: string)
    ensures Complaints(rules, p) == [] <==> forall k :: 0 <= k < |rules| ==> !Violates(p, rules[k])
  {
    if rules != [] {
      ComplaintsEmptyIff(rules[1..], p);
      if forall k :: 0 <= k < |rules| ==> !Violates(p, rules[k]) {
        assert forall k :: 0 <= k < |rules[1..]| ==> !Violates(p, rules[1..][k]) by {
          forall k | 0 <= k < |rules[1..]| ensures !Violates(p, rules[1..][k]) {
            assert rules[1..][k] == rules[k + 1];
          }
        }
      } else {
        var k :| 0 <= k < |rules| && Violates(p, rules[k]);
        if k > 0 {
          assert rules[1..][k - 1] == rules[k];
        }
      }
    }
  }

  /** The password is accepted (no message) exactly when it is at least six characters long
      and holds a digit, a lower-case and an upper-case letter. */
  lemma AcceptsExactlyStrong(p: string)
    ensures Complaints(Rules, p) == [] <==> IsStrong(p)
  {
    ComplaintsEmptyIff(Rules, p);
    assert !IsStrong(p) ==> Violates(p, Rules[0]) || Violates(p, Rules[1])
                            || Violates(p, Rules[2]) || Violates(p, Rules[3]);
  }

  /** When the rules are listed in the source's order, so are the messages: each message
      comes strictly after the ones before it, which also rules out repeats. */
  lemma {:induction false} ComplaintsInOrder(rules: seq<Rule>, p: string)
    requires forall i, j :: 0 <= i < j < |rules| ==> Rank(rules[i]) < Rank(rules[j])
    ensures forall i, j :: 0 <= i < j < |Complaints(rules, p)| ==>
              MessageRank(Complaints(rules, p)[i]) < MessageRank(Complaints(rules, p)[j])
  {
    if rules != [] {
      var rest := Complaints(rules[1..], p);
      ComplaintsInOrder(rules[1..], p);
      if Violates(p, rules[0]) {
        var r := Complaints(rules, p);
        assert r == [Message(rules[0])] + rest;
        MessageRankOfMessage(rules[0]);
        forall j | 0 < j < |r| ensures MessageRank(r[0]) < MessageRank(r[j]) {
          var k := ComplaintSource(rules[1..], p, j - 1);
          MessageRankOfMessage(rules[1..][k]);
        }
      }
    }
  }

  /** The reported messages: at most four, in the order length, digit, lower, upper, and a
      rule's message is among them exactly when the password breaks that rule. */
  lemma ValidationReport(p: string)
    ensures |Complaints(Rules, p)| <= 4
    ensures forall i, j :: 0 <= i < j < |Complaints(Rules, p)| ==>
              MessageRank(Complaints(Rules, p)[i]) < MessageRank(Complaints(Rules, p)[j])
    ensures forall rule :: Message(rule) in Complaints(Rules, p) <==> Violates(p, rule)
  {
    ComplaintsInOrder(Rules, p);
    forall rule ensures Message(rule) in Complaints(Rules, p) <==> Violates(p, rule) {
      ComplaintsComplete(Rules, p, rule);
    }
  }
}
