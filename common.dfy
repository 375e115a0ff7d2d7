/** Shared vocabulary of the property-management model: optional values, the
    two kinds of error the module raises, sequence-generated references and the
    small string helpers the record names are built from. */
module Common {

  /** Monetary amounts are exact; the module's floating-point Monetary fields are not modelled. */
  type Money = real

  datatype Option<+T> = None | Some(value: T)

  /** The exceptions the module raises synchronously on a write or an action. */
  datatype Error =
    | ValidationError(message: string)   // odoo.exceptions.ValidationError
    | UserError(message: string)         // odoo.exceptions.UserError

  /** Outcome of a constraint check or of an action that may raise. */
  datatype Outcome = Pass | Fail(error: Error)

  /** A Char reference field: never set, typed in by a user, or drawn from an
      `ir.sequence`, whose n-th value is modelled as Numbered(n). */
  datatype Reference = Unset | Text(text: string) | Numbered(n: nat)

  /** Python truthiness of a Char field: False and "" are both empty. */
  predicate IsBlank(r: Reference)
  {
    r.Unset? || (r.Text? && r.text == "")
  }

  /** Python's `s[:n]`. */
  function Prefix(s: string, n: nat): (r: string)
    ensures |r| == if |s| < n then |s| else n
    ensures r <= s
  {
    if |s| <= n then s else s[..n]
  }

  function DigitChar(d: nat): (c: char)
    requires d < 10
    ensures '0' <= c <= '9'
  {
    "0123456789"[d]
  }

  /** Decimal digits of a natural number, most significant first (`str(n)`). */
  function NatToString(n: nat): (s: string)
    ensures |s| >= 1
    ensures forall i :: 0 <= i < |s| ==> '0' <= s[i] <= '9'
  {
    if n < 10 then [DigitChar(n)] else NatToString(n / 10) + [DigitChar(n % 10)]
  }

  /** The value a string of decimal digits stands for. */
  function DigitsValue(s: string): int
  {
    if s == [] then 0 else DigitsValue(s[..|s| - 1]) * 10 + (s[|s| - 1] as int - '0' as int)
  }

  lemma {:induction false} NatToStringValue(n: nat)
    ensures DigitsValue(NatToString(n)) == n
  {
    var s := NatToString(n);
    if n < 10 {
      assert s == [DigitChar(n)];
      assert s[..0] == [];
      assert "0123456789"[n] as int - '0' as int == n;
    } else {
      NatToStringValue(n / 10);
      assert s[..|s| - 1] == NatToString(n / 10);
      assert "0123456789"[n % 10] as int - '0' as int == n % 10;
    }
  }

  /** Left-pads with '0' to at least `width` characters (`%0<width>d`). */
  function ZeroPad(n: nat, width: nat): (s: string)
    ensures |s| >= width
    ensures DigitsValue(s) == n
  {
    var digits := NatToString(n);
    NatToStringValue(n);
    if |digits| >= width then digits
    else
      PaddedValue(width - |digits|, digits);
      Zeros(width - |digits|) + digits
  }

  function Zeros(k: nat): (s: string)
    ensures |s| == k
  {
    if k == 0 then "" else "0" + Zeros(k - 1)
  }

  /** Leading zeros do not change the value of a digit string. */
  lemma {:induction false} PaddedValue(k: nat, s: string)
    ensures DigitsValue(Zeros(k) + s) == DigitsValue(s)
    decreases |s|
  {
    if s == [] {
      ZerosValue(k);
      assert Zeros(k) + s == Zeros(k);
    } else {
      var t := Zeros(k) + s;
      assert t[..|t| - 1] == Zeros(k) + s[..|s| - 1];
      assert t[|t| - 1] == s[|s| - 1];
      PaddedValue(k, s[..|s| - 1]);
    }
  }

  lemma {:induction false} ZerosValue(k: nat)
    ensures DigitsValue(Zeros(k)) == 0
  {
    if k > 0 {
      var z := Zeros(k);
      assert z == "0" + Zeros(k - 1);
      ZerosAppend(k - 1);
      assert z == Zeros(k - 1) + "0";
      assert z[..|z| - 1] == Zeros(k - 1);
      ZerosValue(k - 1);
    }
  }

  lemma {:induction false} ZerosAppend(k: nat)
    ensures "0" + Zeros(k) == Zeros(k) + "0"
  {
    if k > 0 {
      ZerosAppend(k - 1);
      assert "0" + Zeros(k) == "0" + ("0" + Zeros(k - 1));
    }
  }
}
