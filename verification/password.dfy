/**
 * Password strength as registration, password change and password reset
 * check it: at least 8 bytes of UTF-8, and at least one ASCII upper-case
 * letter, one ASCII lower-case letter and one ASCII digit. The length is
 * Go's `len`, a byte count, while the classes are tested rune by rune.
 */
module Password {
  import opened Strings
  import opened Utf8

  const MinBytes: nat := 8

  predicate HasUpper(s: string) {
    exists k | 0 <= k < |s| :: IsUpper(s[k])
  }

  predicate HasLower(s: string) {
    exists k | 0 <= k < |s| :: IsLower(s[k])
  }

  predicate HasDigit(s: string) {
    exists k | 0 <= k < |s| :: IsDigit(s[k])
  }

  /** What the validator accepts. */
  predicate Strong(s: string) {
    ByteLen(s) >= MinBytes && HasUpper(s) && HasLower(s) && HasDigit(s)
  }

  /**
   * ValidatePassword: rejects fewer than 8 bytes outright, then walks the runes
   * setting one flag per class.
   */
  method ValidatePassword(password: string) returns (ok: bool)
    ensures ByteLen(password) < MinBytes ==> !ok
    ensures ok <==> Strong(password)
  {
    if ByteLen(password) < MinBytes {
      return false;
    }
    var hasUpper, hasLower, hasNumber := false, false, false;
    for i := 0 to |password|
      invariant hasUpper <==> exists k | 0 <= k < i :: IsUpper(password[k])
      invariant hasLower <==> exists k | 0 <= k < i :: IsLower(password[k])
      invariant hasNumber <==> exists k | 0 <= k < i :: IsDigit(password[k])
    {
      var c := password[i];
      if IsUpper(c) {
        hasUpper := true;
      } else if IsLower(c) {
        hasLower := true;
      } else if IsDigit(c) {
        hasNumber := true;
      }
    }
    ok := hasUpper && hasLower && hasNumber;
  }

  predicate Unclassified(c: char) {
    !IsUpper(c) && !IsLower(c) && !IsDigit(c)
  }

  /**
   * A character outside the three classes sets no flag: appending it changes
   * only the byte length, so it can help reach 8 bytes but never supplies a class.
   */
  lemma {:induction false} UnclassifiedNeutral(s: string, c: char)
    requires Unclassified(c)
    ensures HasUpper(s + [c]) == HasUpper(s)
    ensures HasLower(s + [c]) == HasLower(s)
    ensures HasDigit(s + [c]) == HasDigit(s)
    ensures ByteLen(s + [c]) == ByteLen(s) + Width(c)
  {
    var t := s + [c];
    assert t[..|t| - 1] == s;
    assert forall k | 0 <= k < |s| :: t[k] == s[k];
  }

  /** Once the string is long enough, unclassified characters neither help nor hurt. */
  lemma {:induction false} UnclassifiedIrrelevant(s: string, c: char)
    requires Unclassified(c) && ByteLen(s) >= MinBytes
    ensures Strong(s + [c]) == Strong(s)
  {
    UnclassifiedNeutral(s, c);
  }

  /** On ASCII text the byte bound is the familiar character bound. */
  lemma {:induction false} AsciiLength(s: string)
    requires IsAscii(s)
    ensures Strong(s) <==> |s| >= MinBytes && HasUpper(s) && HasLower(s) && HasDigit(s)
  {
    ByteLenAscii(s);
  }

  /** "Aa1ééé": six runes but nine bytes, and strong. */
  lemma ShortInRunesAccepted()
    ensures |"Aa1ééé"| == 6
    ensures Strong("Aa1ééé")
  {
    var s := "Aa1ééé";
    assert IsUpper(s[0]) && IsLower(s[1]) && IsDigit(s[2]);
    assert s[..5][..4][..3] == "Aa1";
    ByteLenAscii("Aa1");
    assert ByteLen(s) == 9;
  }

  /** Eight characters without a digit are refused. */
  lemma NoDigitRefused()
    ensures !Strong("Abcdefgh")
  {
    var s := "Abcdefgh";
    assert forall k | 0 <= k < |s| :: !IsDigit(s[k]);
  }
}
