/** frontend/src/components/PasswordStrength.jsx: the strength meter shown
    under a password field. Four checks are scored; the share of passing
    checks sets the width and the colour of the bar. */
module PasswordStrength {

  import opened Text

  /** One line of the checklist under the bar. */
  datatype Check = Check(title: string, valid: bool)

  ghost predicate HasUpper(password: string) { exists i :: 0 <= i < |password| && IsUpperAscii(password[i]) }
  ghost predicate HasLower(password: string) { exists i :: 0 <= i < |password| && IsLowerAscii(password[i]) }
  ghost predicate HasDigit(password: string) { exists i :: 0 <= i < |password| && IsDigitAscii(password[i]) }

  /** `/[A-Z]/.test(s)` and its two siblings, as a scan. */
  function AnyUpper(s: string): (b: bool)
    ensures b <==> HasUpper(s)
  {
    if s == [] then false
    else
      assert HasUpper(s) <==> IsUpperAscii(s[0]) || HasUpper(s[1..]) by {
        if HasUpper(s[1..]) { var i :| 0 <= i < |s[1..]| && IsUpperAscii(s[1..][i]); assert s[i + 1] == s[1..][i]; }
        if HasUpper(s) && !IsUpperAscii(s[0]) { var i :| 0 <= i < |s| && IsUpperAscii(s[i]); assert s[1..][i - 1] == s[i]; }
      }
      IsUpperAscii(s[0]) || AnyUpper(s[1..])
  }

  function AnyLower(s: string): (b: bool)
    ensures b <==> HasLower(s)
  {
    if s == [] then false
    else
      assert HasLower(s) <==> IsLowerAscii(s[0]) || HasLower(s[1..]) by {
        if HasLower(s[1..]) { var i :| 0 <= i < |s[1..]| && IsLowerAscii(s[1..][i]); assert s[i + 1] == s[1..][i]; }
        if HasLower(s) && !IsLowerAscii(s[0]) { var i :| 0 <= i < |s| && IsLowerAscii(s[i]); assert s[1..][i - 1] == s[i]; }
      }
      IsLowerAscii(s[0]) || AnyLower(s[1..])
  }

  function AnyDigit(s: string): (b: bool)
    ensures b <==> HasDigit(s)
  {
    if s == [] then false
    else
      assert HasDigit(s) <==> IsDigitAscii(s[0]) || HasDigit(s[1..]) by {
        if HasDigit(s[1..]) { var i :| 0 <= i < |s[1..]| && IsDigitAscii(s[1..][i]); assert s[i + 1] == s[1..][i]; }
        if HasDigit(s) && !IsDigitAscii(s[0]) { var i :| 0 <= i < |s| && IsDigitAscii(s[i]); assert s[1..][i - 1] == s[i]; }
      }
      IsDigitAscii(s[0]) || AnyDigit(s[1..])
  }

  /** The checklist, in display order. */
  function Checks(password: string): (cs: seq<Check>)
    ensures |cs| == 4
    ensures cs[0] == Check("At least 8 characters", |password| >= 8)
    ensures cs[1] == Check("Contains uppercase letter", HasUpper(password))
    ensures cs[2] == Check("Contains lowercase letter", HasLower(password))
    ensures cs[3] == Check("Contains number", HasDigit(password))
  {
    [ Check("At least 8 characters", |password| >= 8),
      Check("Contains uppercase letter", AnyUpper(password)),
      Check("Contains lowercase letter", AnyLower(password)),
      Check("Contains number", AnyDigit(password)) ]
  }

  /** `checks.filter(check => check.valid).length`. */
  function CountValid(cs: seq<Check>): (n: nat)
    ensures n <= |cs|
    ensures n == |cs| <==> forall i :: 0 <= i < |cs| ==> cs[i].valid
    ensures n == 0 <==> forall i :: 0 <= i < |cs| ==> !cs[i].valid
  {
    if cs == [] then 0
    else
      var rest := CountValid(cs[1..]);
      assert forall i :: 1 <= i < |cs| ==> cs[i] == cs[1..][i - 1];
      (if cs[0].valid then 1 else 0) + rest
  }

  function ValidChecks(password: string): (n: nat)
    ensures n <= 4
    ensures n == 4 <==> (|password| >= 8 && HasUpper(password) && HasLower(password) && HasDigit(password))
    ensures n == 0 <==> (|password| < 8 && !HasUpper(password) && !HasLower(password) && !HasDigit(password))
  {
    var cs := Checks(password);
    assert (forall i :: 0 <= i < |cs| ==> cs[i].valid) <==> cs[0].valid && cs[1].valid && cs[2].valid && cs[3].valid;
    assert (forall i :: 0 <= i < |cs| ==> !cs[i].valid) <==> !cs[0].valid && !cs[1].valid && !cs[2].valid && !cs[3].valid;
    CountValid(cs)
  }

  /** `validChecks / checks.length`: one of 0, 1/4, 1/2, 3/4, 1. */
  function Strength(password: string): (s: real)
    ensures 0.0 <= s <= 1.0
    ensures s * 4.0 == ValidChecks(password) as real
  {
    ValidChecks(password) as real / 4.0
  }

  /** The bar is `strength * 100` percent wide. */
  function BarWidth(password: string): (w: real)
    ensures 0.0 <= w <= 100.0
    ensures w == ValidChecks(password) as real * 25.0
  {
    Strength(password) * 100.0
  }

  datatype Band = Destructive | Warning | Success

  /** The bar's colour: below one half, below four fifths, or above. */
  function BarBand(password: string): (b: Band)
    ensures b == Destructive <==> ValidChecks(password) <= 1
    ensures b == Warning <==> 2 <= ValidChecks(password) <= 3
    ensures b == Success <==> ValidChecks(password) == 4
  {
    var s := Strength(password);
    if s < 0.5 then Destructive else if s < 0.8 then Warning else Success
  }

  /** A passing check keeps passing when characters are appended. */
  lemma AppendKeepsChecks(p: string, q: string)
    ensures forall i :: 0 <= i < 4 && Checks(p)[i].valid ==> Checks(p + q)[i].valid
  {
    if HasUpper(p) { var i :| 0 <= i < |p| && IsUpperAscii(p[i]); assert (p + q)[i] == p[i]; }
    if HasLower(p) { var i :| 0 <= i < |p| && IsLowerAscii(p[i]); assert (p + q)[i] == p[i]; }
    if HasDigit(p) { var i :| 0 <= i < |p| && IsDigitAscii(p[i]); assert (p + q)[i] == p[i]; }
  }

  lemma {:induction false} CountValidMonotone(a: seq<Check>, b: seq<Check>)
    requires |a| == |b| && forall i :: 0 <= i < |a| && a[i].valid ==> b[i].valid
    ensures CountValid(a) <= CountValid(b)
  {
    if a != [] {
      CountValidMonotone(a[1..], b[1..]);
    }
  }

  /** Appending characters to a password never lowers its score. */
  lemma AppendNeverLowers(p: string, q: string)
    ensures ValidChecks(p) <= ValidChecks(p + q)
    ensures Strength(p) <= Strength(p + q)
  {
    AppendKeepsChecks(p, q);
    CountValidMonotone(Checks(p), Checks(p + q));
  }

  /** The empty password passes nothing and shows an empty red bar. */
  lemma EmptyScoresZero()
    ensures ValidChecks("") == 0 && BarWidth("") == 0.0 && BarBand("") == Destructive
  {
  }

  /** Eight lower-case letters pass two checks; mixing in a capital and a
      digit passes all four. */
  lemma Examples()
    ensures BarBand("password") == Warning
    ensures BarBand("Passw0rd") == Success
  {
    assert IsLowerAscii("password"[0]);
    assert !HasUpper("password") by {
      forall i | 0 <= i < |"password"| ensures !IsUpperAscii("password"[i]) {}
    }
    assert !HasDigit("password") by {
      forall i | 0 <= i < |"password"| ensures !IsDigitAscii("password"[i]) {}
    }
    assert IsUpperAscii("Passw0rd"[0]) && IsLowerAscii("Passw0rd"[1]) && IsDigitAscii("Passw0rd"[5]);
  }
}
