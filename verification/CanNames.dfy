/**
 Device identity (src/deltaPriority.ts, sourceRefIdentity): two references name one device exactly when their 64-bit
 CAN Names are the same number.
 */
module CanNames {
  import opened Common
  import opened DeltaPriority

  function HexValue(c: char): nat {
    if '0' <= c <= '9' then c as nat - '0' as nat
    else if 'a' <= c <= 'f' then c as nat - 'a' as nat + 10
    else if 'A' <= c <= 'F' then c as nat - 'A' as nat + 10
    else 0
  }

  function HexNumber(s: string): nat {
    if s == "" then 0 else 16 * HexNumber(s[..|s| - 1]) + HexValue(s[|s| - 1])
  }

  ghost predicate AllHex(s: string) {
    forall i | 0 <= i < |s| :: IsHex(s[i])
  }

  /** The 64-bit number a CAN Name reference ends in. */
  function CanName(ref: SourceRef): nat
    requires HasCanName(ref)
  {
    HexNumber(ref[|ref| - 16..])
  }

  lemma LowerHexDigit(c: char, d: char)
    requires IsHex(c) && IsHex(d)
    ensures LowerHex(c) == LowerHex(d) <==> HexValue(c) == HexValue(d)
    ensures HexValue(c) < 16
  {
  }

  lemma {:induction false} HexNumbersDetermineDigits(a: string, b: string)
    requires |a| == |b| && AllHex(a) && AllHex(b)
    ensures HexNumber(a) == HexNumber(b) <==> LowerHexString(a) == LowerHexString(b)
  {
    if a != "" {
      var n := |a| - 1;
      HexNumbersDetermineDigits(a[..n], b[..n]);
      LowerHexDigit(a[n], b[n]);
      assert LowerHexString(a) == LowerHexString(a[..n]) + [LowerHex(a[n])];
      assert LowerHexString(b) == LowerHexString(b[..n]) + [LowerHex(b[n])];
      if LowerHexString(a) == LowerHexString(b) {
        assert LowerHexString(a)[..n] == LowerHexString(a[..n]) && LowerHexString(b)[..n] == LowerHexString(b[..n]);
        assert LowerHexString(a)[n] == LowerHexString(b)[n];
      }
    }
  }

  /**
   Two references with a CAN Name are one device exactly when the names are the same number, whatever the prefix and
   the letter case; two without one exactly when they are equal. A reference without a CAN Name is the device of one
   that has one exactly when it is that name itself, in lower case.
   */
  lemma SameDeviceExactlyWhen(a: SourceRef, b: SourceRef)
    ensures HasCanName(a) && HasCanName(b)
      ==> (SourceRefIdentity(a) == SourceRefIdentity(b) <==> CanName(a) == CanName(b))
    ensures !HasCanName(a) && !HasCanName(b) ==> (SourceRefIdentity(a) == SourceRefIdentity(b) <==> a == b)
    ensures HasCanName(a) && !HasCanName(b) ==>
      (SourceRefIdentity(a) == SourceRefIdentity(b)
       <==> |b| == 16 && AllHex(b) && LowerHexString(b) == b && HexNumber(b) == CanName(a))
  {
    if HasCanName(a) {
      var x := a[|a| - 16..];
      assert AllHex(x);
      if HasCanName(b) {
        var y := b[|b| - 16..];
        assert AllHex(y);
        HexNumbersDetermineDigits(x, y);
      } else {
        LowerIsLower(x);
        if |b| == 16 && AllHex(b) { HexNumbersDetermineDigits(x, b); }
      }
    }
  }

  lemma LowerIsLower(s: string)
    requires AllHex(s)
    ensures AllHex(LowerHexString(s)) && LowerHexString(LowerHexString(s)) == LowerHexString(s)
  {
  }

  /**
   The exact-match rule for other references has this one exception: a bare name stands for every reference that
   carries it.
   */
  lemma BareNameIsDevice(prefix: string, name: string)
    requires |name| == 16 && AllHex(name) && LowerHexString(name) == name
    ensures HasCanName(prefix + "." + name) && !HasCanName(name)
    ensures SourceRefIdentity(prefix + "." + name) == SourceRefIdentity(name)
  {
    var ref := prefix + "." + name;
    assert ref[|ref| - 16..] == name;
  }

  const HEX_DIGITS := "0123456789abcdefABCDEF"

  lemma HexDigitsAre(c: char)
    ensures IsHex(c) <==> c in HEX_DIGITS
  {
    if IsHex(c) {
      if '0' <= c <= '9' {
        assert c == HEX_DIGITS[c as nat - '0' as nat];
      } else if 'a' <= c <= 'f' {
        assert c == HEX_DIGITS[c as nat - 'a' as nat + 10];
      } else {
        assert c == HEX_DIGITS[c as nat - 'A' as nat + 16];
      }
    }
  }

  /** Anything, a dot and sixteen hex digits of either case. */
  ghost predicate EndsInName(ref: SourceRef, prefix: string, name: string) {
    ref == prefix + "." + name && |name| == 16 && forall i | 0 <= i < |name| :: name[i] in HEX_DIGITS
  }

  lemma NameIsCarried(ref: SourceRef, prefix: string, name: string)
    requires EndsInName(ref, prefix, name)
    ensures HasCanName(ref)
  {
    hide IsHex;
    assert |ref| == |prefix| + 17 && ref[|prefix|] == '.';
    forall i | |ref| - 16 <= i < |ref| ensures IsHex(ref[i]) {
      assert ref[i] == name[i - (|ref| - 16)];
      HexDigitsAre(ref[i]);
    }
  }

  lemma CarriedIsName(ref: SourceRef)
    requires HasCanName(ref)
    ensures EndsInName(ref, ref[..|ref| - 17], ref[|ref| - 16..])
  {
    hide IsHex;
    var prefix, name := ref[..|ref| - 17], ref[|ref| - 16..];
    assert ref == prefix + "." + name;
    forall i | 0 <= i < 16 ensures name[i] in HEX_DIGITS {
      assert name[i] == ref[|ref| - 16 + i];
      HexDigitsAre(name[i]);
    }
  }

  /** A reference carries a CAN Name exactly when it ends in a dot and sixteen hex digits. */
  lemma CarriesNameExactlyWhen(ref: SourceRef)
    ensures HasCanName(ref) <==> exists prefix, name :: EndsInName(ref, prefix, name)
  {
    hide HasCanName, EndsInName;
    if HasCanName(ref) { CarriedName(ref); }
    if prefix, name :| EndsInName(ref, prefix, name) { NameIsCarried(ref, prefix, name); }
  }

  lemma CarriedName(ref: SourceRef)
    requires HasCanName(ref)
    ensures exists prefix, name :: EndsInName(ref, prefix, name)
  {
    CarriedIsName(ref);
  }
}
