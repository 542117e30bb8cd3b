/** Task identifiers: `fmt.Sprintf("%s-%d", key, n)`, `splitID` and `idLess`
    (board.go), with the decimal conversions they rest on. */
module TaskId {

  const MAX_INT: int := 0x7fff_ffff_ffff_ffff
  const MIN_INT: int := -0x8000_0000_0000_0000

  predicate IsDigit(c: char) { '0' <= c <= '9' }

  function DigitChar(d: nat): (c: char)
    requires d < 10
    ensures IsDigit(c) && c as int - '0' as int == d
  {
    ('0' as int + d) as char
  }

  /** The decimal digits of n, without leading zeros. */
  function Itoa(n: nat): string {
    if n < 10 then [DigitChar(n)] else Itoa(n / 10) + [DigitChar(n % 10)]
  }

  predicate AllDigits(s: string) {
    forall i :: 0 <= i < |s| ==> IsDigit(s[i])
  }

  function DigitsValue(s: string): nat
    requires AllDigits(s)
  {
    if s == [] then 0
    else 10 * DigitsValue(s[..|s| - 1]) + (s[|s| - 1] as int - '0' as int)
  }

  function Clamp(v: int): int {
    if v > MAX_INT then MAX_INT else if v < MIN_INT then MIN_INT else v
  }

  /** The value `v` of `v, _ := strconv.Atoi(s)`: 0 on a syntax error, the
      nearest 64-bit bound when out of range. */
  function Atoi(s: string): int {
    var negative := |s| > 0 && s[0] == '-';
    var digits := if |s| > 0 && (s[0] == '-' || s[0] == '+') then s[1..] else s;
    if digits == [] || !AllDigits(digits) then 0
    else
      var v: int := DigitsValue(digits);
      Clamp(if negative then -v else v)
  }

  /** The position of the first dash, or |s| when there is none. */
  function DashAt(s: string): (i: nat)
    ensures i <= |s|
    ensures forall j :: 0 <= j < i ==> s[j] != '-'
    ensures i < |s| ==> s[i] == '-'
  {
    if s == [] then 0 else if s[0] == '-' then 0 else 1 + DashAt(s[1..])
  }

  /** `fmt.Sprintf("%s-%d", key, n)` */
  function FormatId(key: string, n: int): string {
    key + "-" + (if n < 0 then "-" + Itoa(-n) else Itoa(n))
  }

  function SplitId(id: string): (string, int) {
    var i := DashAt(id);
    (id[..i], Atoi(if i < |id| then id[i + 1..] else ""))
  }

  /** Byte-wise string order. */
  predicate StringLess(a: string, b: string) {
    b != [] && (a == [] || a[0] < b[0] || (a[0] == b[0] && StringLess(a[1..], b[1..])))
  }

  /** Orders "AB-2" before "AB-10". */
  predicate IdLess(a: string, b: string) {
    var (pa, na) := SplitId(a);
    var (pb, nb) := SplitId(b);
    if pa != pb then StringLess(pa, pb) else na < nb
  }

  lemma {:induction false} ItoaParses(n: nat)
    ensures Itoa(n) != [] && AllDigits(Itoa(n)) && DigitsValue(Itoa(n)) == n
  {
    if n >= 10 {
      ItoaParses(n / 10);
      var s := Itoa(n);
      assert s[..|s| - 1] == Itoa(n / 10);
    } else {
      assert Itoa(n)[..0] == [];
    }
  }

  lemma DashAtKey(key: string, rest: string)
    requires '-' !in key
    ensures DashAt(key + "-" + rest) == |key|
  {
    var s := key + "-" + rest;
    var i := DashAt(s);
    assert s[|key|] == '-';
    assert forall j :: 0 <= j < |key| ==> s[j] == key[j];
  }

  /** Two formatted identifiers are equal only when key and number are: no
      task identifier is ever issued twice. */
  lemma FormatIdInjective(k1: string, n1: nat, k2: string, n2: nat)
    requires '-' !in k1 && '-' !in k2
    requires FormatId(k1, n1) == FormatId(k2, n2)
    ensures k1 == k2 && n1 == n2
  {
    DashAtKey(k1, Itoa(n1));
    DashAtKey(k2, Itoa(n2));
    var s := FormatId(k1, n1);
    assert k1 == s[..|k1|] && k2 == s[..|k2|];
    assert Itoa(n1) == s[|k1| + 1..] && Itoa(n2) == s[|k2| + 1..];
    ItoaParses(n1);
    ItoaParses(n2);
  }

  /** splitID inverts the format: exactly up to the largest 64-bit integer, and
      with that integer as the answer above it. */
  lemma SplitFormat(key: string, n: nat)
    requires '-' !in key
    ensures SplitId(FormatId(key, n)) == (key, if n <= MAX_INT then n else MAX_INT)
  {
    DashAtKey(key, Itoa(n));
    var s := FormatId(key, n);
    assert s[..|key|] == key;
    assert s[|key| + 1..] == Itoa(n);
    ItoaParses(n);
    assert IsDigit(Itoa(n)[0]);
  }

  lemma {:induction false} StringLessTotal(a: string, b: string)
    ensures !(StringLess(a, b) && StringLess(b, a))
    ensures a == b || StringLess(a, b) || StringLess(b, a)
  {
    if a != [] && b != [] {
      StringLessTotal(a[1..], b[1..]);
      if a[0] == b[0] && a[1..] == b[1..] {
        assert a == [a[0]] + a[1..] && b == [b[0]] + b[1..];
      }
    }
  }

  /** On issued identifiers idLess leaves no ties, so sorting by it has one result. */
  lemma IdLessTotal(k1: string, n1: nat, k2: string, n2: nat)
    requires '-' !in k1 && '-' !in k2 && n1 <= MAX_INT && n2 <= MAX_INT
    ensures !(IdLess(FormatId(k1, n1), FormatId(k2, n2)) && IdLess(FormatId(k2, n2), FormatId(k1, n1)))
    ensures FormatId(k1, n1) == FormatId(k2, n2)
            || IdLess(FormatId(k1, n1), FormatId(k2, n2)) || IdLess(FormatId(k2, n2), FormatId(k1, n1))
  {
    SplitFormat(k1, n1);
    SplitFormat(k2, n2);
    StringLessTotal(k1, k2);
  }

  lemma {:induction false} StringLessTransitive(a: string, b: string, c: string)
    requires StringLess(a, b) && StringLess(b, c)
    ensures StringLess(a, c)
  {
    if a != [] && a[0] == b[0] && b[0] == c[0] { StringLessTransitive(a[1..], b[1..], c[1..]); }
  }

  /** idLess orders any two identifiers, if only as equals: what is not after b
      is not after anything b is not after. */
  lemma IdOrderTransitive(a: string, b: string, c: string)
    requires !IdLess(b, a) && !IdLess(c, b)
    ensures !IdLess(c, a)
  {
    var pa, pb, pc := SplitId(a).0, SplitId(b).0, SplitId(c).0;
    hide SplitId, StringLess;
    StringLessTotal(pa, pb);
    StringLessTotal(pb, pc);
    StringLessTotal(pa, pc);
    if StringLess(pa, pb) && StringLess(pb, pc) { StringLessTransitive(pa, pb, pc); }
    if StringLess(pc, pa) && StringLess(pa, pb) { StringLessTransitive(pc, pa, pb); }
  }

  lemma IdLessOneWay(a: string, b: string)
    ensures !(IdLess(a, b) && IdLess(b, a))
  {
    hide SplitId;
    StringLessTotal(SplitId(a).0, SplitId(b).0);
  }

  /** An identifier is the key, a dash, and the number in decimal digits without leading zeros. */
  lemma FormatShape(key: string, n: nat) returns (digits: string)
    ensures FormatId(key, n) == key + ['-'] + digits && digits != [] && AllDigits(digits)
    ensures DigitsValue(digits) == n && (digits[0] == '0' ==> n == 0)
  {
    digits := Itoa(n);
    ItoaParses(n);
    NoLeadingZero(n);
  }

  lemma {:induction false} NoLeadingZero(n: nat)
    ensures Itoa(n) != [] && (Itoa(n)[0] == '0' ==> n == 0)
  {
    if n >= 10 { NoLeadingZero(n / 10); }
  }

  /** Of two strings the smaller one is a proper prefix of the other, or has the
      smaller character where they first differ. */
  lemma {:induction false} StringLessIs(a: string, b: string)
    ensures StringLess(a, b) <==> exists i :: DiffersAt(a, b, i)
  {
    if b != [] && (a == [] || a[0] < b[0]) {
      assert DiffersAt(a, b, 0) by { assert a[..0] == b[..0]; }
    } else if b != [] && a[0] == b[0] {
      StringLessIs(a[1..], b[1..]);
      if StringLess(a, b) {
        var i :| DiffersAt(a[1..], b[1..], i);
        assert a[..i + 1] == [a[0]] + a[1..][..i] && b[..i + 1] == [b[0]] + b[1..][..i];
        assert DiffersAt(a, b, i + 1);
      }
      if i :| DiffersAt(a, b, i) {
        assert i > 0;
        assert a[1..][..i - 1] == a[..i][1..] && b[1..][..i - 1] == b[..i][1..];
        assert DiffersAt(a[1..], b[1..], i - 1);
      }
    }
  }

  predicate DiffersAt(a: string, b: string, i: int) {
    0 <= i <= |a| && i < |b| && a[..i] == b[..i] && (i < |a| ==> a[i] < b[i])
  }

  /** Issued identifiers go by project, and within a project by number. */
  lemma IdLessIs(k1: string, n1: nat, k2: string, n2: nat)
    requires '-' !in k1 && '-' !in k2 && n1 <= MAX_INT && n2 <= MAX_INT
    ensures IdLess(FormatId(k1, n1), FormatId(k2, n2)) <==> if k1 == k2 then n1 < n2 else StringLess(k1, k2)
  {
    SplitFormat(k1, n1);
    SplitFormat(k2, n2);
    hide SplitId, FormatId;
  }

  /** Atoi on a signed number, and on what is none. */
  lemma AtoiSigned(n: int)
    requires n >= 0
    ensures Atoi("-" + Itoa(n)) == (if n <= MAX_INT then -n else MIN_INT)
    ensures Atoi("+" + Itoa(n)) == (if n <= MAX_INT then n else MAX_INT)
  {
    ItoaParses(n);
    assert ("-" + Itoa(n))[1..] == Itoa(n) && ("+" + Itoa(n))[1..] == Itoa(n);
  }

  lemma AtoiRejects(s: string, i: nat)
    requires i < |s| && !IsDigit(s[i]) && (i == 0 ==> s[0] != '-' && s[0] != '+')
    ensures Atoi(s) == 0 && Atoi("") == Atoi("-") == Atoi("+") == 0
  {
    if i > 0 { assert s[1..][i - 1] == s[i]; }
  }
}
