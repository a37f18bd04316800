/**
 * `onlyNumbers`: keeps the decimal digits of a string. The command handlers
 * import it from the utilities index; it is taken here to be the digit
 * filter of the safe utilities module.
 */
module SafeUtils {
  import opened JsString

  /** A JavaScript argument: a string, or anything else (`null`, `undefined`, a number, ...). */
  datatype JsValue = Str(s: string) | NotAString

  /** `onlyNumbers(text)`: a falsy or non-string argument gives the empty string. */
  function OnlyNumbersOf(v: JsValue): (r: string)
    ensures AllDigits(r)
    ensures v.NotAString? ==> r == ""
    ensures v.Str? ==> |r| <= |v.s|
  {
    match v
    case NotAString => ""
    case Str(s) => if s == "" then "" else OnlyNumbers(s)
  }

  /** `text.replace(/[^0-9]/g, "")` */
  function OnlyNumbers(s: string): (r: string)
    ensures AllDigits(r) && |r| <= |s|
  {
    if s == [] then []
    else (if IsDigit(s[0]) then [s[0]] else []) + OnlyNumbers(s[1..])
  }

  /** Filtering distributes over concatenation: the digits come out in their original order. */
  lemma {:induction false} OnlyNumbersConcat(a: string, b: string)
    ensures OnlyNumbers(a + b) == OnlyNumbers(a) + OnlyNumbers(b)
  {
    if a == [] {
      assert a + b == b;
    } else {
      assert (a + b)[1..] == a[1..] + b;
      OnlyNumbersConcat(a[1..], b);
    }
  }

  /** On one character the filter keeps a digit and drops anything else. */
  lemma OnlyNumbersChar(c: char)
    ensures OnlyNumbers([c]) == if IsDigit(c) then [c] else []
  {
    assert [c][1..] == [];
  }

  /** A string made only of digits is returned unchanged. */
  lemma {:induction false} OnlyNumbersFixesDigits(s: string)
    requires AllDigits(s)
    ensures OnlyNumbers(s) == s
  {
    if s != [] {
      OnlyNumbersFixesDigits(s[1..]);
    }
  }

  /** Filtering twice is filtering once. */
  lemma OnlyNumbersIdempotent(s: string)
    ensures OnlyNumbers(OnlyNumbers(s)) == OnlyNumbers(s)
  {
    OnlyNumbersFixesDigits(OnlyNumbers(s));
  }

  /** The digits of `d + "@lid"` are `d` itself when `d` is all digits. */
  lemma OnlyNumbersOfLid(d: string)
    requires AllDigits(d)
    ensures OnlyNumbers(d + "@lid") == d
  {
    OnlyNumbersConcat(d, "@lid");
    OnlyNumbersFixesDigits(d);
    assert OnlyNumbers("@lid") == [] by {
      assert "@lid"[1..] == "lid";
      assert "lid"[1..] == "id";
      assert "id"[1..] == "d";
      assert "d"[1..] == "";
    }
  }

  /** A mention `@<digits>` filters to its digits. */
  lemma OnlyNumbersOfMention(d: string)
    requires AllDigits(d)
    ensures OnlyNumbers("@" + d) == d
  {
    OnlyNumbersConcat("@", d);
    OnlyNumbersChar('@');
    OnlyNumbersFixesDigits(d);
  }
}
