/** SLC data-table addresses such as N7:0, B3:0/2, T4:0.ACC and S:1
    (protocol/ethernetip/pccc/address.go, frame.go): parser, printer and the law that
    ties them. Text is ASCII. File type codes are those of the DF1 Protocol and Command
    Set Reference Manual (1770-6.5.16). */
module SlcAddress {
  import opened Bytes
  import opened Text
  import opened Wrappers

  /** sub: word within a timer, counter or control element. bit: -1 if none. */
  datatype Address = Address(fileType: u8, fileNumber: int, element: int, sub: int, bit: int)

  datatype Fault =
    | Empty | MissingColon | MissingElement | MissingType | UnknownType
    | BadFileNumber | BadElement | UnknownField | BadBit
  datatype Outcome = Parsed(a: Address) | Rejected(fault: Fault)

  // -- tables

  const STATUS: u8 := 0x84
  const BIT: u8 := 0x85
  const TIMER: u8 := 0x86
  const COUNTER: u8 := 0x87
  const CONTROL: u8 := 0x88
  const INTEGER: u8 := 0x89
  const FLOAT: u8 := 0x8A
  const OUTPUT: u8 := 0x8B
  const INPUT: u8 := 0x8C
  const STRING: u8 := 0x8D
  const ASCII: u8 := 0x8E
  const BCD: u8 := 0x8F

  predicate Known(ft: u8) { STATUS <= ft <= BCD }

  /** The mnemonic of a file type; empty for an unknown code. */
  function Letter(ft: u8): string {
    if ft == STATUS then "S" else if ft == BIT then "B" else if ft == TIMER then "T"
    else if ft == COUNTER then "C" else if ft == CONTROL then "R" else if ft == INTEGER then "N"
    else if ft == FLOAT then "F" else if ft == OUTPUT then "O" else if ft == INPUT then "I"
    else if ft == STRING then "ST" else if ft == ASCII then "A" else if ft == BCD then "D" else ""
  }

  function FromLetter(l: string): Option<u8> {
    if l == "S" then Some(STATUS) else if l == "B" then Some(BIT) else if l == "T" then Some(TIMER)
    else if l == "C" then Some(COUNTER) else if l == "R" then Some(CONTROL) else if l == "N" then Some(INTEGER)
    else if l == "F" then Some(FLOAT) else if l == "O" then Some(OUTPUT) else if l == "I" then Some(INPUT)
    else if l == "ST" then Some(STRING) else if l == "A" then Some(ASCII) else if l == "D" then Some(BCD) else None
  }

  /** The two table searches are inverse to each other. */
  lemma LettersInverse(ft: u8, l: string)
    ensures Known(ft) ==> (FromLetter(l) == Some(ft) <==> l == Letter(ft))
    ensures FromLetter(l).Some? ==> Known(FromLetter(l).value)
  {
  }

  function Implicit(ft: u8): Option<int> {
    if ft == OUTPUT then Some(0) else if ft == INPUT then Some(1) else if ft == STATUS then Some(2) else None
  }

  predicate BitAddressable(ft: u8) {
    ft == INTEGER || ft == BIT || ft == STATUS || ft == INPUT || ft == OUTPUT || ft == BCD
  }

  function Fields(ft: u8): map<string, (int, int)> {
    if ft == TIMER then
      map["PRE" := (1, -1), "ACC" := (2, -1), "EN" := (0, 15), "TT" := (0, 14), "DN" := (0, 13)]
    else if ft == COUNTER then
      map["PRE" := (1, -1), "ACC" := (2, -1), "CU" := (0, 15), "CD" := (0, 14), "DN" := (0, 13),
          "OV" := (0, 12), "UN" := (0, 11), "UA" := (0, 10)]
    else if ft == CONTROL then
      map["LEN" := (1, -1), "POS" := (2, -1), "EN" := (0, 15), "EU" := (0, 14), "DN" := (0, 13),
          "EM" := (0, 12), "ER" := (0, 11), "UL" := (0, 10), "IN" := (0, 9), "FD" := (0, 8)]
    else map[]
  }

  /** No two fields of a table name the same place. */
  lemma FieldsInjective(ft: u8, x: string, y: string)
    requires x in Fields(ft) && y in Fields(ft) && Fields(ft)[x] == Fields(ft)[y]
    ensures x == y
  {
  }

  ghost predicate Names(ft: u8, name: string, sub: int, bit: int) {
    name in Fields(ft) && Fields(ft)[name] == (sub, bit)
  }

  /** The field name of a place, if it has one. */
  ghost function FieldName(ft: u8, sub: int, bit: int): (r: Option<string>)
    ensures r.Some? ==> Names(ft, r.value, sub, bit)
    ensures r.None? ==> forall name :: !Names(ft, name, sub, bit)
  {
    if exists name :: Names(ft, name, sub, bit)
    then var name :| Names(ft, name, sub, bit); Some(name)
    else None
  }

  lemma FieldNameIs(ft: u8, name: string, sub: int, bit: int)
    requires Names(ft, name, sub, bit)
    ensures FieldName(ft, sub, bit) == Some(name)
  {
  }

  /** fieldNameFor: the table is visited in no particular order, which does not show. */
  method FieldNameFor(ft: u8, sub: int, bit: int, order: seq<string>) returns (r: Option<string>)
    requires forall name | name in Fields(ft) :: name in order
    requires forall i | 0 <= i < |order| :: order[i] in Fields(ft)
    ensures r == FieldName(ft, sub, bit)
  {
    for i := 0 to |order|
      invariant forall j | 0 <= j < i :: !Names(ft, order[j], sub, bit)
    {
      if Fields(ft)[order[i]] == (sub, bit) {
        FieldNameIs(ft, order[i], sub, bit);
        return Some(order[i]);
      }
    }
    assert forall name | Names(ft, name, sub, bit) :: name in order;
    return None;
  }

  // -- numbers

  predicate Signed(s: string) {
    s != "" && if s[0] == '-' || s[0] == '+' then AllDigits(s[1..]) else AllDigits(s)
  }

  function SignedValue(s: string): int
    requires Signed(s)
  {
    if s[0] == '-' then -(ValueOf(s[1..]) as int) else if s[0] == '+' then ValueOf(s[1..]) else ValueOf(s)
  }

  function Itoa(n: int): string { if n < 0 then "-" + Digits(-n) else Digits(n) }

  lemma NumberRoundTrip(n: nat)
    ensures Signed(Digits(n)) && SignedValue(Digits(n)) == n
  {
  }

  // -- text

  function UpperChar(c: char): char { if 'a' <= c <= 'z' then (c as int - 32) as char else c }
  function ToUpper(s: string): string { seq(|s|, i requires 0 <= i < |s| => UpperChar(s[i])) }

  datatype Split = Split(head: string, sep: Option<char>, suffix: string)

  /** splitSuffix: cuts at the leftmost '.' or '/'. */
  function SplitSuffix(s: string): Split {
    var dot, slash := IndexOf(s, '.'), IndexOf(s, '/');
    if dot == |s| && slash == |s| then Split(s, None, "")
    else if dot < slash then Split(s[..dot], Some('.'), s[dot + 1..])
    else Split(s[..slash], Some('/'), s[slash + 1..])
  }

  /** How many letters s begins with. */
  function LetterCount(s: string): (n: nat)
    ensures n <= |s| && (forall i | 0 <= i < n :: IsAlpha(s[i])) && (n < |s| ==> !IsAlpha(s[n]))
  {
    if s == "" || !IsAlpha(s[0]) then 0 else 1 + LetterCount(s[1..])
  }

  /** splitLeadingLetters. */
  method SplitLeadingLetters(s: string) returns (letters: string, rest: string)
    ensures letters == s[..LetterCount(s)] && rest == s[LetterCount(s)..]
    ensures letters + rest == s
  {
    var i := 0;
    while i < |s| && IsAlpha(s[i])
      invariant i <= |s| && forall j | 0 <= j < i :: IsAlpha(s[j])
    {
      i := i + 1;
    }
    assert LetterCount(s) == i;
    return s[..i], s[i..];
  }

  // -- parser and printer

  function ParseFileNumber(ft: u8, digits: string): Option<int> {
    if digits == "" then Implicit(ft)
    else if !AllDigits(digits) || ValueOf(digits) > 255 then None
    else if Implicit(ft).Some? && Implicit(ft).value != ValueOf(digits) then None
    else Some(ValueOf(digits))
  }

  function ParseSuffix(a: Address, sep: Option<char>, suffix: string): Outcome {
    if sep == None then Parsed(a)
    else if sep == Some('.') then
      if suffix in Fields(a.fileType) then Parsed(a.(sub := Fields(a.fileType)[suffix].0, bit := Fields(a.fileType)[suffix].1))
      else Rejected(UnknownField)
    else if '.' in suffix || '/' in suffix || !Signed(suffix) then Rejected(BadBit)
    else if SignedValue(suffix) < 0 || SignedValue(suffix) > 15 || !BitAddressable(a.fileType) then Rejected(BadBit)
    else Parsed(a.(bit := SignedValue(suffix)))
  }

  function ParseParts(left: string, right: string, sep: Option<char>, suffix: string): Outcome {
    if right == "" then Rejected(MissingElement)
    else
      var n := LetterCount(left);
      if n == 0 then Rejected(MissingType)
      else
        var ft := FromLetter(left[..n]);
        if ft == None then Rejected(UnknownType)
        else
          var fileNumber := ParseFileNumber(ft.value, left[n..]);
          if fileNumber == None then Rejected(BadFileNumber)
          else if !Signed(right) || SignedValue(right) < 0 || SignedValue(right) > 255 then Rejected(BadElement)
          else ParseSuffix(Address(ft.value, fileNumber.value, SignedValue(right), 0, -1), sep, suffix)
  }

  function ParseSplit(sp: Split): Outcome {
    var colon := IndexOf(sp.head, ':');
    if colon == |sp.head| then Rejected(MissingColon)
    else ParseParts(sp.head[..colon], sp.head[colon + 1..], sp.sep, sp.suffix)
  }

  /** What ParseAddress computes. A number too long for an int is out of range in any case. */
  function Parse(s: string): Outcome {
    var up := ToUpper(TrimSpace(s));
    if up == "" then Rejected(Empty) else ParseSplit(SplitSuffix(up))
  }

  /** isAllDigitsOrLeadingSign. */
  method IsSigned(s: string) returns (r: bool)
    ensures r == Signed(s)
  {
    if s == "" {
      return false;
    }
    if s[0] == '-' || s[0] == '+' {
      r := IsAllDigits(s[1..]);
    } else {
      r := IsAllDigits(s);
    }
  }

  method TakeFileNumber(ft: u8, digits: string) returns (r: Option<int>)
    ensures r == ParseFileNumber(ft, digits)
  {
    if digits == "" {
      return Implicit(ft);
    }
    var ok := IsAllDigits(digits);
    if !ok {
      return None;
    }
    var n := ValueOf(digits);
    if n > 255 || (Implicit(ft).Some? && Implicit(ft).value != n) {
      return None;
    }
    return Some(n);
  }

  method TakeSuffix(a: Address, sep: Option<char>, suffix: string) returns (r: Outcome)
    ensures r == ParseSuffix(a, sep, suffix)
  {
    if sep == None {
      return Parsed(a);
    }
    if sep == Some('.') {
      if suffix !in Fields(a.fileType) {
        return Rejected(UnknownField);
      }
      var (sub, bit) := Fields(a.fileType)[suffix];
      return Parsed(a.(sub := sub, bit := bit));
    }
    var ok := IsSigned(suffix);
    if '.' in suffix || '/' in suffix || !ok {
      return Rejected(BadBit);
    }
    var bit := SignedValue(suffix);
    if bit < 0 || bit > 15 || !BitAddressable(a.fileType) {
      return Rejected(BadBit);
    }
    return Parsed(a.(bit := bit));
  }

  /** ParseAddress, in the order of its checks. */
  method ParseAddress(s: string) returns (r: Outcome)
    ensures r == Parse(s)
  {
    var up := ToUpper(TrimSpace(s));
    if up == "" {
      return Rejected(Empty);
    }
    var sp := SplitSuffix(up);
    var colon := IndexOf(sp.head, ':');
    if colon == |sp.head| {
      return Rejected(MissingColon);
    }
    var left, right := sp.head[..colon], sp.head[colon + 1..];
    if right == "" {
      return Rejected(MissingElement);
    }
    var letters, digits := SplitLeadingLetters(left);
    if letters == "" {
      return Rejected(MissingType);
    }
    var ft := FromLetter(letters);
    if ft == None {
      return Rejected(UnknownType);
    }
    var fileNumber := TakeFileNumber(ft.value, digits);
    if fileNumber == None {
      return Rejected(BadFileNumber);
    }
    var ok := IsSigned(right);
    if !ok || SignedValue(right) < 0 || SignedValue(right) > 255 {
      return Rejected(BadElement);
    }
    r := TakeSuffix(Address(ft.value, fileNumber.value, SignedValue(right), 0, -1), sp.sep, sp.suffix);
  }

  function Left(a: Address): string {
    if Implicit(a.fileType) == Some(a.fileNumber) then Letter(a.fileType)
    else Letter(a.fileType) + Itoa(a.fileNumber)
  }

  ghost function Tail(a: Address): string {
    var name := FieldName(a.fileType, a.sub, a.bit);
    if name.Some? then "." + name.value else if a.bit >= 0 then "/" + Itoa(a.bit) else ""
  }

  /** The String method. */
  ghost function Print(a: Address): string { Left(a) + ":" + Itoa(a.element) + Tail(a) }

  method PrintAddress(a: Address, order: seq<string>) returns (s: string)
    requires forall name | name in Fields(a.fileType) :: name in order
    requires forall i | 0 <= i < |order| :: order[i] in Fields(a.fileType)
    ensures s == Print(a)
  {
    s := Letter(a.fileType);
    var def := Implicit(a.fileType);
    if def.Some? && a.fileNumber == def.value {
      s := s + ":" + Itoa(a.element);
    } else {
      s := s + Itoa(a.fileNumber);
      s := s + ":" + Itoa(a.element);
    }
    var name := FieldNameFor(a.fileType, a.sub, a.bit, order);
    if name.Some? {
      s := s + ("." + name.value);
      return;
    }
    if a.bit >= 0 {
      s := s + ("/" + Itoa(a.bit));
    } else {
      assert s + "" == s;
    }
  }

  /** The addresses that have a spelling: a known file type, numbers in range, the fixed
      file number where there is one, and a place within the element that the suffix
      syntax can name. */
  ghost predicate WellFormed(a: Address) {
    && Known(a.fileType) && 0 <= a.fileNumber <= 255 && 0 <= a.element <= 255
    && (Implicit(a.fileType).Some? ==> a.fileNumber == Implicit(a.fileType).value)
    && (|| FieldName(a.fileType, a.sub, a.bit).Some?
        || (a.sub == 0 && a.bit == -1)
        || (a.sub == 0 && 0 <= a.bit <= 15 && BitAddressable(a.fileType)))
  }

  // -- parsing what was printed

  ghost predicate Plain(s: string) {
    forall i | 0 <= i < |s| :: '!' <= s[i] <= '~' && !('a' <= s[i] <= 'z')
  }

  /** Printed text is upper case and free of blanks. */
  lemma PlainText(s: string)
    requires Plain(s)
    ensures ToUpper(TrimSpace(s)) == s
  {
  }

  lemma PlainDigits(n: nat)
    ensures Plain(Digits(n))
    ensures forall c | c in Digits(n) :: IsDigit(c)
  {
  }

  lemma PlainLetter(ft: u8)
    ensures Plain(Letter(ft))
    ensures forall i | 0 <= i < |Letter(ft)| :: IsAlpha(Letter(ft)[i])
  {
  }

  lemma PlainField(ft: u8, name: string)
    requires name in Fields(ft)
    ensures Plain(name)
  {
  }

  /** A text cut where it was joined. */
  lemma SplitAt(head: string, sep: char, suffix: string)
    requires (sep == '.' || sep == '/') && '.' !in head && '/' !in head
    ensures SplitSuffix(head + [sep] + suffix) == Split(head, Some(sep), suffix)
  {
    var s := head + [sep] + suffix;
    assert s[..|head|] == head && s[|head| + 1..] == suffix;
    IndexIs(s, sep, |head|);
    NotBefore(s, if sep == '.' then '/' else '.', |head|);
  }

  lemma NotBefore(s: string, c: char, i: nat)
    requires i < |s| && c !in s[..i] && s[i] != c
    ensures IndexOf(s, c) > i
  {
  }

  lemma SplitNone(head: string)
    requires '.' !in head && '/' !in head
    ensures SplitSuffix(head) == Split(head, None, "")
  {
  }

  lemma LettersThenDigits(letters: string, digits: string)
    requires forall i | 0 <= i < |letters| :: IsAlpha(letters[i])
    requires digits == "" || AllDigits(digits)
    ensures LetterCount(letters + digits) == |letters|
  {
    var s := letters + digits;
    var n := LetterCount(s);
    assert forall i | 0 <= i < |letters| :: s[i] == letters[i];
    assert digits != "" ==> s[|letters|] == digits[0];
  }

  /** Only letters and digits. */
  ghost predicate Word(s: string) { forall i | 0 <= i < |s| :: IsAlpha(s[i]) || IsDigit(s[i]) }

  lemma FileNumberParses(a: Address)
    requires WellFormed(a)
    ensures ParseFileNumber(a.fileType, FileDigits(a)) == Some(a.fileNumber)
  {
    DigitsValue(a.fileNumber);
  }

  function FileDigits(a: Address): string {
    if Implicit(a.fileType) == Some(a.fileNumber) then "" else Itoa(a.fileNumber)
  }

  lemma LeftText(a: Address)
    requires WellFormed(a)
    ensures var left := Left(a); var n := |Letter(a.fileType)|;
      && LetterCount(left) == n > 0 && left[..n] == Letter(a.fileType) && left[n..] == FileDigits(a)
    ensures Word(Left(a)) && Plain(Left(a))
  {
    var l, d := Letter(a.fileType), FileDigits(a);
    PlainLetter(a.fileType);
    PlainDigits(a.fileNumber);
    LettersThenDigits(l, d);
    assert Left(a) == l + d;
    assert (l + d)[..|l|] == l && (l + d)[|l|..] == d;
    WordOf(l, d);
  }

  lemma PartsParse(a: Address, sep: Option<char>, suffix: string)
    requires WellFormed(a)
    ensures ParseParts(Left(a), Digits(a.element), sep, suffix)
         == ParseSuffix(Address(a.fileType, a.fileNumber, a.element, 0, -1), sep, suffix)
  {
    LeftText(a);
    LettersInverse(a.fileType, Letter(a.fileType));
    FileNumberParses(a);
    NumberRoundTrip(a.element);
  }

  lemma WordOf(l: string, d: string)
    requires forall i | 0 <= i < |l| :: IsAlpha(l[i])
    requires d == "" || AllDigits(d)
    ensures Word(l + d)
  {
  }

  ghost function Head(a: Address): string { Left(a) + ":" + Itoa(a.element) }

  lemma HeadText(a: Address)
    requires WellFormed(a)
    ensures var head := Head(a); var colon := IndexOf(head, ':');
      && colon < |head| && Plain(head) && '.' !in head && '/' !in head
      && head[..colon] == Left(a) && head[colon + 1..] == Digits(a.element)
  {
    var left, right := Left(a), Digits(a.element);
    LeftText(a);
    PlainDigits(a.element);
    JoinAtColon(left, right);
  }

  lemma JoinAtColon(left: string, right: string)
    requires Word(left) && Word(right)
    ensures var head := left + ":" + right; var colon := IndexOf(head, ':');
      && colon < |head| && '.' !in head && '/' !in head && head[..colon] == left && head[colon + 1..] == right
  {
    var head := left + ":" + right;
    assert head[..|left|] == left && head[|left| + 1..] == right;
    assert ':' !in left;
    IndexIs(head, ':', |left|);
  }

  /** The suffix a well-formed address is printed with names its place again. */
  lemma TailParses(a: Address)
    requires WellFormed(a)
    ensures var base := Address(a.fileType, a.fileNumber, a.element, 0, -1);
      && Plain(Tail(a))
      && (Tail(a) == "" ==> a == base)
      && (Tail(a) != "" ==> Tail(a)[0] == '.' || Tail(a)[0] == '/')
      && (Tail(a) != "" ==> ParseSuffix(base, Some(Tail(a)[0]), Tail(a)[1..]) == Parsed(a))
  {
    var name := FieldName(a.fileType, a.sub, a.bit);
    if name.Some? {
      PlainField(a.fileType, name.value);
      assert Tail(a)[1..] == name.value;
    } else if a.bit >= 0 {
      PlainDigits(a.bit);
      NumberRoundTrip(a.bit);
      assert Tail(a)[1..] == Digits(a.bit);
    }
  }

  /** Plain text with at most one suffix falls into its parts. */
  lemma SplitJoined(head: string, tail: string)
    requires Plain(head) && Plain(tail) && '.' !in head && '/' !in head
    requires tail == "" || tail[0] == '.' || tail[0] == '/'
    ensures SplitSuffix(ToUpper(TrimSpace(head + tail)))
         == if tail == "" then Split(head, None, "") else Split(head, Some(tail[0]), tail[1..])
  {
    PlainText(head + tail);
    if tail == "" {
      assert head + tail == head;
      SplitNone(head);
    } else {
      assert head + tail == head + [tail[0]] + tail[1..];
      SplitAt(head, tail[0], tail[1..]);
    }
  }

  lemma HeadParses(a: Address, sep: Option<char>, suffix: string)
    requires WellFormed(a)
    ensures ParseSplit(Split(Head(a), sep, suffix))
         == ParseSuffix(Address(a.fileType, a.fileNumber, a.element, 0, -1), sep, suffix)
  {
    HeadText(a);
    PartsParse(a, sep, suffix);
  }

  lemma PrintedSplits(a: Address)
    requires WellFormed(a)
    ensures var tail := Tail(a);
      && ToUpper(TrimSpace(Print(a))) != ""
      && SplitSuffix(ToUpper(TrimSpace(Print(a))))
         == if tail == "" then Split(Head(a), None, "") else Split(Head(a), Some(tail[0]), tail[1..])
  {
    TailParses(a);
    HeadText(a);
    PlainText(Head(a) + Tail(a));
    SplitJoined(Head(a), Tail(a));
  }

  lemma PrintThenParse(a: Address)
    requires WellFormed(a)
    ensures Parse(Print(a)) == Parsed(a)
  {
    PrintedSplits(a);
    TailParses(a);
    var tail := Tail(a);
    HeadParses(a, if tail == "" then None else Some(tail[0]), if tail == "" then "" else tail[1..]);
  }

  lemma SuffixIsWellFormed(a: Address, sep: Option<char>, suffix: string)
    requires WellFormed(a) && a.sub == 0 && a.bit == -1 && ParseSuffix(a, sep, suffix).Parsed?
    ensures WellFormed(ParseSuffix(a, sep, suffix).a)
  {
    if sep == Some('.') {
      var f := Fields(a.fileType)[suffix];
      assert Names(a.fileType, suffix, f.0, f.1);
    }
  }

  lemma PartsAreWellFormed(left: string, right: string, sep: Option<char>, suffix: string)
    requires ParseParts(left, right, sep, suffix).Parsed?
    ensures WellFormed(ParseParts(left, right, sep, suffix).a)
  {
    var n := LetterCount(left);
    var ft := FromLetter(left[..n]).value;
    LettersInverse(ft, left[..n]);
    SuffixIsWellFormed(Address(ft, ParseFileNumber(ft, left[n..]).value, SignedValue(right), 0, -1), sep, suffix);
  }

  /** Whatever the parser accepts is well-formed. */
  lemma ParsedIsWellFormed(s: string)
    requires Parse(s).Parsed?
    ensures WellFormed(Parse(s).a)
  {
    SplitIsWellFormed(SplitSuffix(ToUpper(TrimSpace(s))));
  }

  lemma SplitIsWellFormed(sp: Split)
    requires ParseSplit(sp).Parsed?
    ensures WellFormed(ParseSplit(sp).a)
  {
    var colon := IndexOf(sp.head, ':');
    PartsAreWellFormed(sp.head[..colon], sp.head[colon + 1..], sp.sep, sp.suffix);
  }

  /** Printing and then parsing gives an address back exactly when it is well-formed. */
  lemma RoundTripIff(a: Address)
    ensures Parse(Print(a)) == Parsed(a) <==> WellFormed(a)
  {
    if WellFormed(a) {
      PrintThenParse(a);
    } else if Parse(Print(a)).Parsed? {
      ParsedIsWellFormed(Print(a));
    }
  }

  /** Every accepted spelling has one canonical form: re-parsing it changes nothing. */
  lemma Canonical(s: string)
    requires Parse(s).Parsed?
    ensures Parse(Print(Parse(s).a)) == Parse(s)
  {
    ParsedIsWellFormed(s);
    PrintThenParse(Parse(s).a);
  }

  /** Different addresses are printed differently. */
  lemma PrintInjective(a: Address, b: Address)
    requires WellFormed(a) && WellFormed(b) && Print(a) == Print(b)
    ensures a == b
  {
    PrintThenParse(a);
    PrintThenParse(b);
  }

  /** A timer's bare control-word bits have a name or no spelling: T4:0 bit 3 prints as a
      text the parser refuses. */
  lemma UnnamedTimerBit()
    ensures var a := Address(TIMER, 4, 0, 0, 3); !WellFormed(a) && Parse(Print(a)) != Parsed(a)
  {
    var a := Address(TIMER, 4, 0, 0, 3);
    assert FieldName(TIMER, 0, 3).None?;
    RoundTripIff(a);
  }

  /** The documented forms, for all numbers in range: file and element, a bit, a named
      timer field, and the status file without its number. By the round trip each parses to
      the address it spells. */
  lemma DocumentedSpellings(f: nat, e: nat, b: nat)
    requires f <= 255 && e <= 255 && b <= 15
    ensures Spells("N" + Digits(f) + ":" + Digits(e), Address(INTEGER, f, e, 0, -1))
    ensures Spells("B" + Digits(f) + ":" + Digits(e) + ("/" + Digits(b)), Address(BIT, f, e, 0, b))
    ensures Spells("T" + Digits(f) + ":" + Digits(e) + ".ACC", Address(TIMER, f, e, 2, -1))
    ensures Spells("S" + ":" + Digits(e), Address(STATUS, 2, e, 0, -1))
  {
    FieldNameIs(TIMER, "ACC", 2, -1);
    NoTail(Address(INTEGER, f, e, 0, -1));
    NoTail(Address(STATUS, 2, e, 0, -1));
    assert "." + "ACC" == ".ACC";
  }

  /** The text of a field of a timer, counter or control element. */
  lemma FieldSpelling(ft: u8, letter: string, name: string, sub: int, bit: int, f: nat, e: nat)
    requires f <= 255 && e <= 255 && (ft == TIMER || ft == COUNTER || ft == CONTROL) && Letter(ft) == letter && Names(ft, name, sub, bit)
    ensures Spells(letter + Digits(f) + ":" + Digits(e) + ("." + name), Address(ft, f, e, sub, bit))
  {
    FieldNameIs(ft, name, sub, bit);
  }

  lemma TimerFields(name: string, sub: int, bit: int)
    requires (name, sub, bit) in {("PRE", 1, -1), ("ACC", 2, -1), ("EN", 0, 15), ("TT", 0, 14), ("DN", 0, 13)}
    ensures Names(TIMER, name, sub, bit)
  {
  }

  /** Every field of a timer: two words, and three bits of the control word. */
  lemma TimerSpellings(f: nat, e: nat, name: string, sub: int, bit: int)
    requires f <= 255 && e <= 255
    requires (name, sub, bit) in {("PRE", 1, -1), ("ACC", 2, -1), ("EN", 0, 15), ("TT", 0, 14), ("DN", 0, 13)}
    ensures Spells("T" + Digits(f) + ":" + Digits(e) + ("." + name), Address(0x86, f, e, sub, bit))
  {
    TimerFields(name, sub, bit);
    FieldSpelling(TIMER, "T", name, sub, bit, f, e);
  }

  lemma CounterFields(name: string, sub: int, bit: int)
    requires (name, sub, bit) in {("PRE", 1, -1), ("ACC", 2, -1), ("CU", 0, 15), ("CD", 0, 14), ("DN", 0, 13), ("OV", 0, 12), ("UN", 0, 11), ("UA", 0, 10)}
    ensures Names(COUNTER, name, sub, bit)
  {
  }

  /** Every field of a counter. */
  lemma CounterSpellings(f: nat, e: nat, name: string, sub: int, bit: int)
    requires f <= 255 && e <= 255
    requires (name, sub, bit) in {("PRE", 1, -1), ("ACC", 2, -1), ("CU", 0, 15), ("CD", 0, 14), ("DN", 0, 13), ("OV", 0, 12), ("UN", 0, 11), ("UA", 0, 10)}
    ensures Spells("C" + Digits(f) + ":" + Digits(e) + ("." + name), Address(0x87, f, e, sub, bit))
  {
    CounterFields(name, sub, bit);
    FieldSpelling(COUNTER, "C", name, sub, bit, f, e);
  }

  lemma ControlFields(name: string, sub: int, bit: int)
    requires (name, sub, bit) in {("LEN", 1, -1), ("POS", 2, -1), ("EN", 0, 15), ("EU", 0, 14), ("DN", 0, 13), ("EM", 0, 12), ("ER", 0, 11), ("UL", 0, 10), ("IN", 0, 9), ("FD", 0, 8)}
    ensures Names(CONTROL, name, sub, bit)
  {
  }

  /** Every field of a control element. */
  lemma ControlSpellings(f: nat, e: nat, name: string, sub: int, bit: int)
    requires f <= 255 && e <= 255
    requires (name, sub, bit) in {("LEN", 1, -1), ("POS", 2, -1), ("EN", 0, 15), ("EU", 0, 14), ("DN", 0, 13), ("EM", 0, 12), ("ER", 0, 11), ("UL", 0, 10), ("IN", 0, 9), ("FD", 0, 8)}
    ensures Spells("R" + Digits(f) + ":" + Digits(e) + ("." + name), Address(0x88, f, e, sub, bit))
  {
    ControlFields(name, sub, bit);
    FieldSpelling(CONTROL, "R", name, sub, bit, f, e);
  }

  /** Every other file type by its letter and code, with its file number, and output and
      input without theirs, which are 0 and 1. */
  lemma FileSpellings(f: nat, e: nat)
    requires f <= 255 && e <= 255
    ensures forall letter, ft: u8 | (letter, ft) in {("B", 0x85), ("T", 0x86), ("C", 0x87), ("R", 0x88), ("N", 0x89), ("F", 0x8A), ("ST", 0x8D), ("A", 0x8E), ("D", 0x8F)} ::
      Spells(letter + Digits(f) + ":" + Digits(e), Address(ft, f, e, 0, -1))
    ensures Spells("O" + ":" + Digits(e), Address(0x8B, 0, e, 0, -1))
    ensures Spells("I" + ":" + Digits(e), Address(0x8C, 1, e, 0, -1))
    ensures Spells("S" + ":" + Digits(e), Address(0x84, 2, e, 0, -1))
  {
    forall ft: u8, name ensures !Names(ft, name, 0, -1) { }
    forall a: Address | a.sub == 0 && a.bit == -1 ensures Tail(a) == "" && Print(a) == Left(a) + ":" + Itoa(a.element) {
      assert Left(a) + ":" + Itoa(a.element) + "" == Left(a) + ":" + Itoa(a.element);
    }
  }

  /** The types whose words have addressable bits. */
  lemma BitSpellings(ft: u8, f: nat, e: nat, b: nat)
    requires f <= 255 && e <= 255 && b <= 15 && ft in {0x84, 0x85, 0x89, 0x8B, 0x8C, 0x8F}
    requires ft == 0x8B ==> f == 0
    requires ft == 0x8C ==> f == 1
    requires ft == 0x84 ==> f == 2
    ensures Spells(Left(Address(ft, f, e, 0, b)) + ":" + Digits(e) + ("/" + Digits(b)), Address(ft, f, e, 0, b))
  {
  }

  /** Floats, strings and ASCII files have none. */
  lemma NoBits(ft: u8, f: int, e: int, sub: int, b: nat)
    requires ft in {0x8A, 0x8D, 0x8E}
    ensures !WellFormed(Address(ft, f, e, sub, b))
  {
  }

  lemma NoTail(a: Address)
    requires a.fileType == INTEGER || a.fileType == STATUS
    requires a.bit == -1
    ensures Tail(a) == "" && Print(a) == Left(a) + ":" + Itoa(a.element)
  {
    assert Fields(a.fileType) == map[];
    assert Left(a) + ":" + Itoa(a.element) + "" == Left(a) + ":" + Itoa(a.element);
  }

  ghost predicate Spells(s: string, a: Address) { WellFormed(a) && Print(a) == s }

  // -- case and blanks

  /** Equal up to the case of ASCII letters. */
  predicate SameButCase(s: string, t: string) {
    |s| == |t| && forall i | 0 <= i < |s| :: s[i] == t[i] || ('a' <= s[i] <= 'z' && t[i] as int == s[i] as int - 32) || ('a' <= t[i] <= 'z' && s[i] as int == t[i] as int - 32)
  }

  lemma UpperSame(s: string, t: string)
    requires SameButCase(s, t)
    ensures ToUpper(s) == ToUpper(t)
  {
  }

  lemma {:induction false} TrimSame(s: string, t: string)
    requires SameButCase(s, t)
    ensures SameButCase(TrimSpace(s), TrimSpace(t))
    decreases |s|
  {
    if s != "" && IsSpace(s[0]) {
      TrimSame(s[1..], t[1..]);
    } else if s != "" && IsSpace(s[|s| - 1]) {
      TrimSame(s[..|s| - 1], t[..|t| - 1]);
    }
  }

  /** Case does not matter. */
  lemma ParseIgnoresCase(s: string, t: string)
    requires SameButCase(s, t)
    ensures Parse(s) == Parse(t)
  {
    TrimSame(s, t);
    UpperSame(TrimSpace(s), TrimSpace(t));
  }

  /** Nor do blanks around the address. */
  lemma ParseIgnoresBlanks(l: string, s: string, r: string)
    requires (forall i | 0 <= i < |l| :: l[i] == ' ') && forall i | 0 <= i < |r| :: r[i] == ' '
    ensures Parse(l + s + r) == Parse(s)
  {
    LeadingBlanks(l, s);
    TrailingBlanks(l + s, r);
  }
}
