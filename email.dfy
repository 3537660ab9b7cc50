/**
 * The e-mail check `/^[^\s@]+@[^\s@]+\.[^\s@]+$/`: a non-empty local part, one
 * '@', then a domain with a '.' that has at least one character on each side, and
 * no whitespace or further '@' anywhere.
 */
module Email {

  /** The characters JavaScript's `\s` matches. */
  predicate IsJsSpace(c: char) {
    var n := c as int;
    (0x09 <= n <= 0x0D) || n == 0x20 || n == 0xA0 || n == 0x1680 || (0x2000 <= n <= 0x200A)
    || n == 0x2028 || n == 0x2029 || n == 0x202F || n == 0x205F || n == 0x3000 || n == 0xFEFF
  }

  /** `[^\s@]` */
  predicate Plain(c: char) {
    !IsJsSpace(c) && c != '@'
  }

  /** `[^\s@]*` */
  predicate AllPlain(s: string) {
    forall i :: 0 <= i < |s| ==> Plain(s[i])
  }

  /**
   * `validateEmail`: some '@' past the first character with only plain characters
   * on either side, and a '.' after it with a character on each side.
   */
  function ValidateEmail(email: string): bool {
    exists at | 0 < at < |email| ::
      email[at] == '@' && AllPlain(email[..at]) && AllPlain(email[at + 1..])
      && exists dot | at + 1 < dot < |email| - 1 :: email[dot] == '.'
  }

  /** The language of the pattern: local part, '@', name, '.', suffix, each non-empty and plain. */
  ghost predicate EmailShape(email: string) {
    exists l: string, a: string, b: string ::
      |l| > 0 && |a| > 0 && |b| > 0 && AllPlain(l) && AllPlain(a) && AllPlain(b)
      && email == l + "@" + a + "." + b
  }

  lemma AllPlainConcat(s: string, t: string)
    requires AllPlain(s) && AllPlain(t)
    ensures AllPlain(s + "." + t)
  {
    var u := s + "." + t;
    forall i | 0 <= i < |u| ensures Plain(u[i]) {
      if i < |s| {
        assert u[i] == s[i];
      } else if i > |s| {
        assert u[i] == t[i - |s| - 1];
      }
    }
  }

  lemma AllPlainSlice(s: string, i: nat, j: nat)
    requires AllPlain(s) && i <= j <= |s|
    ensures AllPlain(s[i..j])
  {
    forall k | 0 <= k < j - i ensures Plain(s[i..j][k]) {
      assert s[i..j][k] == s[i + k];
    }
  }

  /** A string is what lies before position `i`, the character at `i`, and what follows. */
  lemma SplitAround(s: string, i: nat)
    requires i < |s|
    ensures s == s[..i] + [s[i]] + s[i + 1..]
  {
  }

  lemma Regroup(l: string, a: string, b: string)
    ensures l + "@" + (a + "." + b) == l + "@" + a + "." + b
  {
  }

  /** Cutting at the '@' and then at a '.' of the remainder and gluing back gives the string. */
  lemma Reassemble(email: string, at: nat, k: nat)
    requires at < |email| && email[at] == '@'
    requires k < |email[at + 1..]| && email[at + 1..][k] == '.'
    ensures email == email[..at] + "@" + email[at + 1..][..k] + "." + email[at + 1..][k + 1..]
  {
    var domain := email[at + 1..];
    SplitAround(email, at);
    SplitAround(domain, k);
    Regroup(email[..at], domain[..k], domain[k + 1..]);
  }

  /** Every string the check accepts has the pattern's shape. */
  lemma ValidEmailHasShape(email: string)
    requires ValidateEmail(email)
    ensures EmailShape(email)
  {
    var at :| 0 < at < |email| && email[at] == '@' && AllPlain(email[..at]) && AllPlain(email[at + 1..])
              && exists dot | at + 1 < dot < |email| - 1 :: email[dot] == '.';
    var dot :| at + 1 < dot < |email| - 1 && email[dot] == '.';
    ShapeAt(email, at, dot - at - 1);
  }

  /** Cutting at an '@' and at a '.' of the domain with plain text around both gives the shape. */
  lemma ShapeAt(email: string, at: nat, k: nat)
    requires 0 < at < |email| && email[at] == '@'
    requires AllPlain(email[..at]) && AllPlain(email[at + 1..])
    requires 0 < k < |email[at + 1..]| - 1 && email[at + 1..][k] == '.'
    ensures EmailShape(email)
  {
    var domain := email[at + 1..];
    var l, a, b := email[..at], domain[..k], domain[k + 1..];
    assert AllPlain(a) && AllPlain(b) by {
      AllPlainSlice(domain, 0, k);
      AllPlainSlice(domain, k + 1, |domain|);
      assert domain[0..k] == a && domain[k + 1..|domain|] == b;
    }
    Reassemble(email, at, k);
    assert |l| > 0 && |a| > 0 && |b| > 0;
  }

  /** Every string of the pattern's shape is accepted. */
  lemma ShapeIsValidEmail(email: string)
    requires EmailShape(email)
    ensures ValidateEmail(email)
  {
    var l: string, a: string, b: string :|
      |l| > 0 && |a| > 0 && |b| > 0 && AllPlain(l) && AllPlain(a) && AllPlain(b)
      && email == l + "@" + a + "." + b;
    var domain := a + "." + b;
    Regroup(l, a, b);
    var at := |l|;
    assert email[..at] == l && email[at] == '@' && email[at + 1..] == domain;
    AllPlainConcat(a, b);
    assert email[at + 1 + |a|] == domain[|a|] == '.';
  }

  /** The direct check accepts exactly the strings of the pattern's shape. */
  lemma ValidateEmailMatchesShape(email: string)
    ensures ValidateEmail(email) <==> EmailShape(email)
  {
    if ValidateEmail(email) {
      ValidEmailHasShape(email);
    }
    if EmailShape(email) {
      ShapeIsValidEmail(email);
    }
  }

  /** An accepted address holds exactly one '@'. */
  lemma ValidEmailSingleAt(email: string)
    requires ValidateEmail(email)
    ensures exists at :: 0 < at < |email| && email[at] == '@'
                         && forall i :: 0 <= i < |email| && email[i] == '@' ==> i == at
  {
    var at :| 0 < at < |email| && email[at] == '@' && AllPlain(email[..at]) && AllPlain(email[at + 1..])
              && exists dot | at + 1 < dot < |email| - 1 :: email[dot] == '.';
    forall i | 0 <= i < |email| && i != at ensures email[i] != '@' {
      if i < at {
        assert email[..at][i] == email[i];
      } else {
        assert email[at + 1..][i - at - 1] == email[i];
      }
    }
  }

  /** An ordinary address is accepted. */
  lemma EmailExampleAccepted()
    ensures ValidateEmail("ann@example.com")
  {
    var e := "ann@example.com";
    assert e[3] == '@' && e[11] == '.';
    assert e[..3] == "ann";
    assert e[4..] == "example.com";
  }

  /** A domain without a '.' is refused. */
  lemma EmailExampleNoDot()
    ensures !ValidateEmail("ann@example")
  {
    var e := "ann@example";
    forall dot | 0 <= dot < |e| ensures e[dot] != '.' {
    }
  }

  /** An empty local part is refused. */
  lemma EmailExampleNoLocalPart()
    ensures !ValidateEmail("@example.com")
  {
    var e := "@example.com";
    forall at | 0 < at < |e| ensures e[at] != '@' {
    }
  }
}
