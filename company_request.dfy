/** The company registration request and its CNPJ rule chain (CompanyRequest). */
module CompanyRequest {
  import opened Common

  datatype CompanyRequest = CompanyRequest(cnpj: Option<string>, name: string, monthlyRevenue: real, segment: Segment)

  /** One error per rule of the chain, in the order the rules run. */
  datatype CnpjError = CnpjRequired | CnpjNotDigitsOnly | CnpjWrongLength | CnpjAllDigitsEqual | CnpjInvalid

  /** char.IsWhiteSpace: the separators of Unicode categories Zs, Zl and Zp and the control characters it accepts. */
  predicate IsWhiteSpace(c: char)
  {
    var n := c as int;
    (0x09 <= n <= 0x0D) || n == 0x20 || n == 0x85 || n == 0xA0 || n == 0x1680
    || (0x2000 <= n <= 0x200A) || n == 0x2028 || n == 0x2029 || n == 0x202F || n == 0x205F
    || n == 0x3000
  }

  /** string.IsNullOrWhiteSpace. */
  predicate IsNullOrWhiteSpace(s: Option<string>)
  {
    s.None? || forall i :: 0 <= i < |s.value| ==> IsWhiteSpace(s.value[i])
  }

  /** char.IsDigit, for the ASCII digits. */
  predicate IsDigit(c: char)
  {
    '0' <= c <= '9'
  }

  predicate AllDigits(s: string)
  {
    forall i :: 0 <= i < |s| ==> IsDigit(s[i])
  }

  /** new string(s.Where(char.IsDigit).ToArray()): the digits of s, in order. */
  function DigitsOnly(s: string): (r: string)
    ensures AllDigits(r)
    ensures |r| <= |s|
    ensures |r| == |s| <==> AllDigits(s)
    ensures AllDigits(s) ==> r == s
  {
    if s == [] then []
    else if IsDigit(s[0]) then [s[0]] + DigitsOnly(s[1..])
    else DigitsOnly(s[1..])
  }

  /** s.Distinct().Count(). */
  function DistinctCount(s: string): nat
  {
    |set i | 0 <= i < |s| :: s[i]|
  }

  const Weight1: seq<int> := [5, 4, 3, 2, 9, 8, 7, 6, 5, 4, 3, 2]
  const Weight2: seq<int> := [6, 5, 4, 3, 2, 9, 8, 7, 6, 5, 4, 3, 2]

  /** cnpj.Select(c => c - '0'). */
  function DigitValues(s: string): (d: seq<int>)
    ensures |d| == |s|
    ensures forall i :: 0 <= i < |s| ==> d[i] == s[i] as int - '0' as int
  {
    seq(|s|, i requires 0 <= i < |s| => s[i] as int - '0' as int)
  }

  /** Sum of ds[i] * ws[i], accumulated from the front as the loops do. */
  function WeightedSum(ds: seq<int>, ws: seq<int>): int
    requires |ds| == |ws|
  {
    if |ds| == 0 then 0
    else WeightedSum(ds[..|ds| - 1], ws[..|ws| - 1]) + ds[|ds| - 1] * ws[|ws| - 1]
  }

  /** The mod-11 check digit of a weighted sum. */
  function CheckDigit(sum: int): (d: int)
    ensures 0 <= d <= 9
  {
    var m := sum % 11;
    if m < 2 then 0 else 11 - m
  }

  /** Both CNPJ check digits agree with the first twelve (resp. thirteen) digits. */
  predicate HasValidCheckDigits(d: seq<int>)
    requires |d| == 14
  {
    d[12] == CheckDigit(WeightedSum(d[..12], Weight1)) && d[13] == CheckDigit(WeightedSum(d[..13], Weight2))
  }

  /** IsValidCnpj: the two weighted-sum loops. */
  method IsValidCnpj(cnpj: string) returns (valid: bool)
    requires |cnpj| == 14 && AllDigits(cnpj)
    ensures valid == HasValidCheckDigits(DigitValues(cnpj))
  {
    var nums := DigitValues(cnpj);

    var sum1 := 0;
    for i := 0 to 12
      invariant sum1 == WeightedSum(nums[..i], Weight1[..i])
    {
      assert nums[..i + 1][..i] == nums[..i] && Weight1[..i + 1][..i] == Weight1[..i];
      sum1 := sum1 + nums[i] * Weight1[i];
    }
    assert nums[..12] == nums[..12] && Weight1[..12] == Weight1;
    var mod1 := sum1 % 11;
    var check1 := if mod1 < 2 then 0 else 11 - mod1;
    if nums[12] != check1 {
      return false;
    }

    var sum2 := 0;
    for i := 0 to 13
      invariant sum2 == WeightedSum(nums[..i], Weight2[..i])
    {
      assert nums[..i + 1][..i] == nums[..i] && Weight2[..i + 1][..i] == Weight2[..i];
      sum2 := sum2 + nums[i] * Weight2[i];
    }
    assert Weight2[..13] == Weight2;
    var mod2 := sum2 % 11;
    var check2 := if mod2 < 2 then 0 else 11 - mod2;
    return nums[13] == check2;
  }

  /** Validate: the ordered CNPJ rules; the first one that fails yields the only error. */
  function Validate(request: CompanyRequest): (errors: seq<CnpjError>)
    ensures |errors| <= 1
  {
    if IsNullOrWhiteSpace(request.cnpj) then [CnpjRequired]
    else
      var cnpj := request.cnpj.value;
      var digitsOnly := DigitsOnly(cnpj);
      if digitsOnly != cnpj then [CnpjNotDigitsOnly]
      else if |digitsOnly| != 14 then [CnpjWrongLength]
      else if DistinctCount(digitsOnly) == 1 then [CnpjAllDigitsEqual]
      else if !HasValidCheckDigits(DigitValues(digitsOnly)) then [CnpjInvalid]
      else []
  }

  /** A well-formed CNPJ, stated directly: fourteen digits, not all equal, with both check digits right. */
  predicate IsWellFormedCnpj(s: string)
  {
    |s| == 14 && AllDigits(s) && (exists i :: 0 <= i < |s| && s[i] != s[0]) && HasValidCheckDigits(DigitValues(s))
  }

  /** For a non-empty string, one distinct character means all characters equal the first. */
  lemma {:induction false} DistinctCountOne(s: string)
    requires |s| > 0
    ensures DistinctCount(s) == 1 <==> forall i :: 0 <= i < |s| ==> s[i] == s[0]
  {
    var chars := set i | 0 <= i < |s| :: s[i];
    assert s[0] in chars;
    if forall i :: 0 <= i < |s| ==> s[i] == s[0] {
      assert chars == {s[0]};
    } else {
      var j :| 0 <= j < |s| && s[j] != s[0];
      assert s[j] in chars;
      assert {s[0], s[j]} <= chars;
      assert |{s[0], s[j]}| == 2;
      SubsetCardinality({s[0], s[j]}, chars);
    }
  }

  lemma {:induction false} SubsetCardinality<T>(a: set<T>, b: set<T>)
    requires a <= b
    ensures |a| <= |b|
  {
    if a != {} {
      var x :| x in a;
      SubsetCardinality(a - {x}, b - {x});
    }
  }

  /** A null or blank CNPJ gives exactly the "required" error, and nothing else is checked. */
  lemma BlankIsRequired(request: CompanyRequest)
    requires IsNullOrWhiteSpace(request.cnpj)
    ensures Validate(request) == [CnpjRequired]
  {
  }

  /** Any character other than a digit in a non-blank CNPJ gives exactly the formatting error. */
  lemma NonDigitIsRejected(request: CompanyRequest, i: nat)
    requires !IsNullOrWhiteSpace(request.cnpj)
    requires i < |request.cnpj.value| && !IsDigit(request.cnpj.value[i])
    ensures Validate(request) == [CnpjNotDigitsOnly]
  {
    assert !AllDigits(request.cnpj.value);
  }

  /** A non-empty digit string whose length is not 14 gives exactly the length error. */
  lemma WrongLengthIsRejected(request: CompanyRequest)
    requires request.cnpj.Some? && |request.cnpj.value| > 0 && AllDigits(request.cnpj.value)
    requires |request.cnpj.value| != 14
    ensures Validate(request) == [CnpjWrongLength]
  {
    assert !IsWhiteSpace(request.cnpj.value[0]);
  }

  /** Fourteen copies of one digit give exactly the "all digits equal" error. */
  lemma AllEqualIsRejected(request: CompanyRequest, c: char)
    requires IsDigit(c) && request.cnpj.Some? && |request.cnpj.value| == 14
    requires forall i :: 0 <= i < 14 ==> request.cnpj.value[i] == c
    ensures Validate(request) == [CnpjAllDigitsEqual]
  {
    var s := request.cnpj.value;
    assert !IsWhiteSpace(s[0]);
    DistinctCountOne(s);
  }

  /**
   * Fourteen digits, not all equal, whose check digits are wrong give exactly the "invalid" error:
   * the last rule of the chain, for every input that reaches it.
   */
  lemma BadCheckDigitsIsInvalid(request: CompanyRequest)
    requires request.cnpj.Some? && |request.cnpj.value| == 14 && AllDigits(request.cnpj.value)
    requires exists i :: 0 <= i < 14 && request.cnpj.value[i] != request.cnpj.value[0]
    requires !HasValidCheckDigits(DigitValues(request.cnpj.value))
    ensures Validate(request) == [CnpjInvalid]
  {
    var s := request.cnpj.value;
    assert !IsWhiteSpace(s[0]);
    DistinctCountOne(s);
  }

  /** The rule chain accepts exactly the well-formed CNPJs. */
  lemma ValidateAcceptsExactlyWellFormed(request: CompanyRequest)
    ensures Validate(request) == [] <==> request.cnpj.Some? && IsWellFormedCnpj(request.cnpj.value)
  {
    if request.cnpj.Some? {
      var s := request.cnpj.value;
      if |s| == 14 && AllDigits(s) {
        assert !IsWhiteSpace(s[0]);
        DistinctCountOne(s);
      }
    }
  }

  /** All-zero digits pass the checksum and are stopped only by the equal-digits rule. */
  lemma ZerosPassChecksumButAreRejected()
    ensures HasValidCheckDigits(DigitValues("00000000000000"))
    ensures Validate(CompanyRequest(Some("00000000000000"), "", 0.0, Services)) == [CnpjAllDigitsEqual]
  {
    var d := DigitValues("00000000000000");
    assert d[..12] == seq(12, _ => 0);
    assert d[..13] == seq(13, _ => 0);
    assert WeightedSum(d[..12], Weight1) == 0 by { WeightedSumOfZeros(12, Weight1); }
    assert WeightedSum(d[..13], Weight2) == 0 by { WeightedSumOfZeros(13, Weight2); }
    AllEqualIsRejected(CompanyRequest(Some("00000000000000"), "", 0.0, Services), '0');
  }

  lemma {:induction false} WeightedSumOfZeros(n: nat, ws: seq<int>)
    requires |ws| == n
    ensures WeightedSum(seq(n, _ => 0), ws) == 0
  {
    if n > 0 {
      assert seq(n, _ => 0)[..n - 1] == seq(n - 1, _ => 0);
      WeightedSumOfZeros(n - 1, ws[..n - 1]);
    }
  }

  /** One more term of a weighted sum. */
  lemma WeightedSumStep(ds: seq<int>, ws: seq<int>, k: nat, sum: int)
    requires k < |ds| && k < |ws| && WeightedSum(ds[..k], ws[..k]) == sum
    ensures WeightedSum(ds[..k + 1], ws[..k + 1]) == sum + ds[k] * ws[k]
  {
    assert ds[..k + 1][..k] == ds[..k] && ws[..k + 1][..k] == ws[..k];
  }

  /** The first weighted sum of 11.222.333/0001-81: 102, so the first check digit is 8. */
  lemma ValidExampleSum1()
    ensures WeightedSum([1, 1, 2, 2, 2, 3, 3, 3, 0, 0, 0, 1], Weight1) == 102
  {
    var ds := [1, 1, 2, 2, 2, 3, 3, 3, 0, 0, 0, 1];
    WeightedSumStep(ds, Weight1, 0, 0);
    WeightedSumStep(ds, Weight1, 1, 5);
    WeightedSumStep(ds, Weight1, 2, 9);
    WeightedSumStep(ds, Weight1, 3, 15);
    WeightedSumStep(ds, Weight1, 4, 19);
    WeightedSumStep(ds, Weight1, 5, 37);
    WeightedSumStep(ds, Weight1, 6, 61);
    WeightedSumStep(ds, Weight1, 7, 82);
    WeightedSumStep(ds, Weight1, 8, 100);
    WeightedSumStep(ds, Weight1, 9, 100);
    WeightedSumStep(ds, Weight1, 10, 100);
    WeightedSumStep(ds, Weight1, 11, 100);
    assert ds[..12] == ds && Weight1[..12] == Weight1;
  }

  /** The second weighted sum of 11.222.333/0001-81: 120, so the second check digit is 1. */
  lemma ValidExampleSum2()
    ensures WeightedSum([1, 1, 2, 2, 2, 3, 3, 3, 0, 0, 0, 1, 8], Weight2) == 120
  {
    var ds := [1, 1, 2, 2, 2, 3, 3, 3, 0, 0, 0, 1, 8];
    WeightedSumStep(ds, Weight2, 0, 0);
    WeightedSumStep(ds, Weight2, 1, 6);
    WeightedSumStep(ds, Weight2, 2, 11);
    WeightedSumStep(ds, Weight2, 3, 19);
    WeightedSumStep(ds, Weight2, 4, 25);
    WeightedSumStep(ds, Weight2, 5, 29);
    WeightedSumStep(ds, Weight2, 6, 56);
    WeightedSumStep(ds, Weight2, 7, 80);
    WeightedSumStep(ds, Weight2, 8, 101);
    WeightedSumStep(ds, Weight2, 9, 101);
    WeightedSumStep(ds, Weight2, 10, 101);
    WeightedSumStep(ds, Weight2, 11, 101);
    WeightedSumStep(ds, Weight2, 12, 104);
    assert ds[..13] == ds && Weight2[..13] == Weight2;
  }

  /** The check digits of 11.222.333/0001-81 are right. */
  lemma ValidExampleDigits()
    ensures HasValidCheckDigits(DigitValues("11222333000181"))
  {
    var d := DigitValues("11222333000181");
    assert d[..12] == [1, 1, 2, 2, 2, 3, 3, 3, 0, 0, 0, 1];
    assert d[..13] == [1, 1, 2, 2, 2, 3, 3, 3, 0, 0, 0, 1, 8];
    ValidExampleSum1();
    ValidExampleSum2();
  }

  /** A valid CNPJ passes every rule. */
  lemma ValidExample()
    ensures Validate(CompanyRequest(Some("11222333000181"), "", 0.0, Services)) == []
  {
    var s := "11222333000181";
    ValidExampleDigits();
    assert AllDigits(s);
    assert s[2] != s[0];
    ValidateAcceptsExactlyWellFormed(CompanyRequest(Some(s), "", 0.0, Services));
  }

  /** The second weighted sum of 12345678901234: 286, so the second check digit should be 0. */
  lemma InvalidExampleSum2()
    ensures WeightedSum([1, 2, 3, 4, 5, 6, 7, 8, 9, 0, 1, 2, 3], Weight2) == 286
  {
    var ds := [1, 2, 3, 4, 5, 6, 7, 8, 9, 0, 1, 2, 3];
    WeightedSumStep(ds, Weight2, 0, 0);
    WeightedSumStep(ds, Weight2, 1, 6);
    WeightedSumStep(ds, Weight2, 2, 16);
    WeightedSumStep(ds, Weight2, 3, 28);
    WeightedSumStep(ds, Weight2, 4, 40);
    WeightedSumStep(ds, Weight2, 5, 50);
    WeightedSumStep(ds, Weight2, 6, 104);
    WeightedSumStep(ds, Weight2, 7, 160);
    WeightedSumStep(ds, Weight2, 8, 216);
    WeightedSumStep(ds, Weight2, 9, 270);
    WeightedSumStep(ds, Weight2, 10, 270);
    WeightedSumStep(ds, Weight2, 11, 274);
    WeightedSumStep(ds, Weight2, 12, 280);
    assert ds[..13] == ds && Weight2[..13] == Weight2;
  }

  /** The second check digit of 12345678901234 should be 0, not 4. */
  lemma InvalidExampleDigits()
    ensures !HasValidCheckDigits(DigitValues("12345678901234"))
  {
    var d := DigitValues("12345678901234");
    assert d[..13] == [1, 2, 3, 4, 5, 6, 7, 8, 9, 0, 1, 2, 3];
    assert d[13] == 4;
    InvalidExampleSum2();
  }

  /** The digit string the unit tests use has a wrong second check digit. */
  lemma InvalidExample()
    ensures Validate(CompanyRequest(Some("12345678901234"), "", 0.0, Services)) == [CnpjInvalid]
  {
    var s := "12345678901234";
    InvalidExampleDigits();
    assert AllDigits(s);
    assert !IsWhiteSpace(s[0]);
    assert s[1] != s[0];
    DistinctCountOne(s);
  }

  /** The fourteen digits obtained by appending both check digits to twelve base digits. */
  function Complete(base: seq<int>): (d: seq<int>)
    requires |base| == 12
    ensures |d| == 14 && d[..12] == base
  {
    var c1 := CheckDigit(WeightedSum(base, Weight1));
    var c2 := CheckDigit(WeightedSum(base + [c1], Weight2));
    base + [c1, c2]
  }

  /** Every twelve-digit base has exactly one completion with valid check digits. */
  lemma CheckDigitsDeterminedByBase(d: seq<int>)
    requires |d| == 14
    ensures HasValidCheckDigits(d) <==> d == Complete(d[..12])
  {
    var c := Complete(d[..12]);
    assert c[..13] == d[..12] + [c[12]];
    assert HasValidCheckDigits(c);
    if HasValidCheckDigits(d) {
      assert d[..13] == d[..12] + [d[12]];
      assert d == d[..12] + [d[12], d[13]];
    }
  }
}
