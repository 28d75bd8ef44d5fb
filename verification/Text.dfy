/** ASCII text: digits, numbers, blanks and searches, as Go's strings and strconv do them. */
module Text {
  predicate IsDigit(c: char) { '0' <= c <= '9' }
  predicate IsAlpha(c: char) { 'A' <= c <= 'Z' || 'a' <= c <= 'z' }

  predicate AllDigits(s: string) { s != "" && forall i | 0 <= i < |s| :: IsDigit(s[i]) }

  /** isAllDigits. */
  method IsAllDigits(s: string) returns (r: bool)
    ensures r == AllDigits(s)
  {
    if s == "" {
      return false;
    }
    for i := 0 to |s|
      invariant forall j | 0 <= j < i :: IsDigit(s[j])
    {
      if !IsDigit(s[i]) {
        return false;
      }
    }
    return true;
  }

  function ValueOf(s: string): nat
    requires AllDigits(s)
  {
    assert IsDigit(s[|s| - 1]);
    var d := s[|s| - 1] as int - '0' as int;
    if |s| == 1 then d else 10 * ValueOf(s[..|s| - 1]) + d
  }

  function DigitChar(d: nat): char
    requires d < 10
  {
    ('0' as int + d) as char
  }

  /** strconv.Itoa. */
  function Digits(n: nat): (s: string)
    ensures AllDigits(s)
  {
    if n < 10 then [DigitChar(n)] else Digits(n / 10) + [DigitChar(n % 10)]
  }

  lemma {:induction false} DigitsValue(n: nat)
    ensures ValueOf(Digits(n)) == n
  {
    if n >= 10 {
      DigitsValue(n / 10);
      var s := Digits(n);
      assert s[..|s| - 1] == Digits(n / 10);
    }
  }

  predicate IsSpace(c: char) { c == ' ' || '\t' <= c <= '\r' }

  function TrimLeft(s: string): string { if s != "" && IsSpace(s[0]) then TrimLeft(s[1..]) else s }
  function TrimRight(s: string): string { if s != "" && IsSpace(s[|s| - 1]) then TrimRight(s[..|s| - 1]) else s }
  function TrimSpace(s: string): string { TrimRight(TrimLeft(s)) }

  /** The first position of c, or |s|. */
  function IndexOf(s: string, c: char): (r: nat)
    ensures r <= |s| && c !in s[..r] && (r < |s| ==> s[r] == c)
  {
    if s == "" then 0 else if s[0] == c then 0 else 1 + IndexOf(s[1..], c)
  }

  lemma IndexIs(s: string, c: char, i: nat)
    requires i < |s| && s[i] == c && c !in s[..i]
    ensures IndexOf(s, c) == i
  {
  }

  lemma IndexNone(s: string, c: char)
    requires c !in s
    ensures IndexOf(s, c) == |s|
  {
  }

  /** Blanks on either side go. */
  lemma {:induction false} LeadingBlanks(l: string, s: string)
    requires forall i | 0 <= i < |l| :: l[i] == ' '
    ensures TrimSpace(l + s) == TrimSpace(s)
    decreases |l|
  {
    if l == "" {
      assert l + s == s;
    } else {
      assert (l + s)[1..] == l[1..] + s;
      LeadingBlanks(l[1..], s);
    }
  }

  lemma {:induction false} TrailingBlanks(s: string, r: string)
    requires forall i | 0 <= i < |r| :: r[i] == ' '
    ensures TrimSpace(s + r) == TrimSpace(s)
    decreases |s| + |r|
  {
    if r == "" {
      assert s + r == s;
    } else if s == "" {
      assert s + r == r && r == r + "";
      LeadingBlanks(r, "");
    } else if IsSpace(s[0]) {
      assert (s + r)[1..] == s[1..] + r;
      TrailingBlanks(s[1..], r);
    } else {
      assert (s + r)[..|s + r| - 1] == s + r[..|r| - 1];
      TrailingBlanks(s, r[..|r| - 1]);
    }
  }
}
