/**
  Phone numbers: stripping to digits, the Brazilian display mask
  `(AA) NNNNN-NNNN` / `(AA) NNNN-NNNN`, and the 10-or-11-digit validity rule.
*/
module Phone {
  import opened Text
  import Seqs

  /** `phone.replace(/\D/g, '')`: the digits of `s`, in order. */
  function Digits(s: string): (d: string)
    ensures forall k | 0 <= k < |d| :: IsDigit(d[k])
  {
    Seqs.Filter(IsDigit, s)
  }

  /** `r` displays the digit string `d` as `(AA) M…M-LLLL`: the first two
      digits in parentheses, a space, the middle digits, a hyphen and the
      last four digits. */
  predicate IsMaskOf(r: string, d: string) {
    && |d| >= 6
    && |r| == |d| + 4
    && r[0] == '(' && r[1..3] == d[..2] && r[3] == ')' && r[4] == ' '
    && r[5..|r| - 5] == d[2..|d| - 4]
    && r[|r| - 5] == '-'
    && r[|r| - 4..] == d[|d| - 4..]
  }

  /** A fully masked phone number: the mask of its own 10 or 11 digits. */
  predicate IsMaskedPhone(r: string) {
    var d := Digits(r);
    10 <= |d| <= 11 && IsMaskOf(r, d)
  }

  /** `validatePhone`: the number has 10 or 11 digits, whatever else it holds. */
  predicate ValidatePhone(phone: string) {
    10 <= |Digits(phone)| <= 11
  }

  /** `formatPhone`: masks a number with exactly 11 or 10 digits and returns
      any other input unchanged. */
  function FormatPhone(phone: string): (r: string)
    ensures Digits(r) == Digits(phone)
    ensures ValidatePhone(phone) ==> IsMaskOf(r, Digits(phone))
    ensures !ValidatePhone(phone) ==> r == phone
  {
    var d := Digits(phone);
    if |d| == 11 then
      MaskDigits(d, 7);
      "(" + d[..2] + ") " + d[2..7] + "-" + d[7..]
    else if |d| == 10 then
      MaskDigits(d, 6);
      "(" + d[..2] + ") " + d[2..6] + "-" + d[6..]
    else
      phone
  }

  /** Stripping distributes over concatenation. */
  lemma DigitsConcat(a: string, b: string)
    ensures Digits(a + b) == Digits(a) + Digits(b)
  {
    Seqs.FilterConcat(IsDigit, a, b);
  }

  /** A string of digits is its own digit string. */
  lemma DigitsOfDigits(d: string)
    requires forall k | 0 <= k < |d| :: IsDigit(d[k])
    ensures Digits(d) == d
  {
    Seqs.FilterAll(IsDigit, d);
  }

  /** Appending text without digits leaves the digit string unchanged. */
  lemma DigitsAppendPunctuation(s: string, t: string)
    requires forall k | 0 <= k < |t| :: !IsDigit(t[k])
    ensures Digits(s + t) == Digits(s)
  {
    DigitsConcat(s, t);
    Seqs.FilterNone(IsDigit, t);
  }

  /** Appending digits extends the digit string by exactly those digits. */
  lemma DigitsAppendDigits(s: string, t: string)
    requires forall k | 0 <= k < |t| :: IsDigit(t[k])
    ensures Digits(s + t) == Digits(s) + t
  {
    DigitsConcat(s, t);
    DigitsOfDigits(t);
  }

  /** The mask adds only punctuation: its digits are the digits it shows,
      and it has the shape `IsMaskOf` describes. */
  lemma MaskDigits(d: string, cut: nat)
    requires forall k | 0 <= k < |d| :: IsDigit(d[k])
    requires 2 <= cut == |d| - 4
    ensures Digits("(" + d[..2] + ") " + d[2..cut] + "-" + d[cut..]) == d
    ensures IsMaskOf("(" + d[..2] + ") " + d[2..cut] + "-" + d[cut..], d)
  {
    var a, b, c := d[..2], d[2..cut], d[cut..];
    MaskStripped(a, b, c);
    SplitThree(d, 2, cut);
    MaskShape(a, b, c, d);
  }

  /** Stripping a mask built from digit blocks gives the blocks back. */
  lemma MaskStripped(a: string, b: string, c: string)
    requires forall k | 0 <= k < |a| :: IsDigit(a[k])
    requires forall k | 0 <= k < |b| :: IsDigit(b[k])
    requires forall k | 0 <= k < |c| :: IsDigit(c[k])
    ensures Digits("(" + a + ") " + b + "-" + c) == a + b + c
  {
    var m2 := "(" + a + ") ";
    MaskPrefixStripped(a);
    DigitsAppendDigits(m2, b);
    DigitsAppendPunctuation(m2 + b, "-");
    DigitsAppendDigits(m2 + b + "-", c);
  }

  /** Stripping `(AA) ` gives `AA`. */
  lemma MaskPrefixStripped(a: string)
    requires forall k | 0 <= k < |a| :: IsDigit(a[k])
    ensures Digits("(" + a + ") ") == a
  {
    DigitsAppendPunctuation([], "(");
    assert Digits("(") == [] by { assert [] + "(" == "("; }
    DigitsAppendDigits("(", a);
    DigitsAppendPunctuation("(" + a, ") ");
  }

  lemma SplitThree(d: string, i: nat, j: nat)
    requires i <= j <= |d|
    ensures d[..i] + d[i..j] + d[j..] == d
  {
  }

  lemma MaskShape(a: string, b: string, c: string, d: string)
    requires |a| == 2 && |c| == 4 && d == a + b + c
    ensures IsMaskOf("(" + a + ") " + b + "-" + c, d)
  {
    var r := "(" + a + ") " + b + "-" + c;
    assert r[1..3] == a;
    assert r[5..|r| - 5] == b;
    assert r[|r| - 4..] == c;
    assert d[..2] == a && d[2..|d| - 4] == b && d[|d| - 4..] == c;
  }

  /** `validatePhone` accepts exactly the numbers that `formatPhone` masks. */
  lemma ValidIffMasked(phone: string)
    ensures ValidatePhone(phone) <==> IsMaskedPhone(FormatPhone(phone))
  {
  }

  /** Formatting an already formatted number changes nothing. */
  lemma FormatIdempotent(phone: string)
    ensures FormatPhone(FormatPhone(phone)) == FormatPhone(phone)
  {
  }

  /** A digit string has only one mask. */
  lemma MaskUnique(r1: string, r2: string, d: string)
    requires IsMaskOf(r1, d) && IsMaskOf(r2, d)
    ensures r1 == r2
  {
    assert r1[..5] == r2[..5];
    assert r1[5..|r1| - 5] == r2[5..|r2| - 5];
    assert r1[|r1| - 5..] == r2[|r2| - 5..];
    SplitThree(r1, 5, |r1| - 5);
    SplitThree(r2, 5, |r2| - 5);
  }

  lemma ElevenDigitSpelling()
    ensures "11999991111" == "11" + "99999" + "1111"
    ensures "(" + "11" + ") " + "99999" + "-" + "1111" == "(11) 99999-1111"
  {
  }

  lemma TenDigitSpelling()
    ensures "1199991111" == "11" + "9999" + "1111"
    ensures "(" + "11" + ") " + "9999" + "-" + "1111" == "(11) 9999-1111"
  {
  }

  /** Eleven digits get the five-digit middle block. */
  lemma FormatElevenDigits(d: string)
    requires d == "11999991111"
    ensures FormatPhone(d) == "(11) 99999-1111"
  {
    DigitsOfDigits(d);
    ElevenDigitSpelling();
    MaskShape("11", "99999", "1111", d);
    MaskUnique(FormatPhone(d), "(11) 99999-1111", d);
  }

  /** Ten digits get the four-digit middle block. */
  lemma FormatTenDigits(d: string)
    requires d == "1199991111"
    ensures FormatPhone(d) == "(11) 9999-1111"
  {
    DigitsOfDigits(d);
    TenDigitSpelling();
    MaskShape("11", "9999", "1111", d);
    MaskUnique(FormatPhone(d), "(11) 9999-1111", d);
  }

  /** Too few digits: the input comes back unchanged. */
  lemma FormatTooShort()
    ensures FormatPhone("123") == "123"
  {
    DigitsOfDigits("123");
  }

  /** A number stored in masked form is left as it is, so formatting a
      stored phone again for display changes nothing. */
  lemma FormatMasked(r: string)
    requires IsMaskedPhone(r)
    ensures FormatPhone(r) == r
  {
    MaskUnique(FormatPhone(r), r, Digits(r));
  }

  /** The seed data's phone `(11) 9999-1111` is such a number. */
  lemma FormatMaskedExample()
    ensures FormatPhone("(11) 9999-1111") == "(11) 9999-1111"
  {
    MaskDigits("1199991111", 6);
    assert "(" + "11" + ") " + "9999" + "-" + "1111" == "(11) 9999-1111";
    FormatIdempotent("1199991111");
    FormatTenDigits("1199991111");
  }
}
