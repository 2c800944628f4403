/**
 The namespace of the managed rules: the display name printed for a rule id, and
 the listing that recovers ids from the display names of all firewall rules.
 */
module RuleNames {
  /** PowerShell's `[int]` refuses anything from here on. */
  const INT_LIMIT := 0x8000_0000

  function DigitChar(d: nat): char
    requires d < 10
  {
    ['0', '1', '2', '3', '4', '5', '6', '7', '8', '9'][d]
  }

  predicate IsDigit(c: char) { '0' <= c <= '9' }

  function DigitValue(c: char): nat
    requires IsDigit(c)
  {
    c as int - '0' as int
  }

  function Digits(n: nat): string {
    if n < 10 then [DigitChar(n)] else Digits(n / 10) + [DigitChar(n % 10)]
  }

  /** Python's `str` of an integer. */
  function Decimal(n: int): string {
    if n < 0 then "-" + Digits(-n) else Digits(n)
  }

  predicate AllDigits(s: string) {
    s != "" && forall i :: 0 <= i < |s| ==> IsDigit(s[i])
  }

  function ParseDigits(s: string): nat
    requires AllDigits(s)
  {
    if |s| == 1 then DigitValue(s[0])
    else 10 * ParseDigits(s[..|s| - 1]) + DigitValue(s[|s| - 1])
  }

  /** Python's `rstrip("/")`. */
  function StripSlashes(s: string): string {
    if s != "" && s[|s| - 1] == '/' then StripSlashes(s[..|s| - 1]) else s
  }

  /** What Python's `strip` takes away. */
  predicate IsSpace(c: char) {
    var n := c as int;
    || 0x09 <= n <= 0x0D || 0x1C <= n <= 0x20 || n == 0x85 || n == 0xA0
    || n == 0x1680 || 0x2000 <= n <= 0x200A || n == 0x2028 || n == 0x2029
    || n == 0x202F || n == 0x205F || n == 0x3000
  }

  function StripLeft(s: string): string {
    if s != "" && IsSpace(s[0]) then StripLeft(s[1..]) else s
  }

  function StripRight(s: string): string {
    if s != "" && IsSpace(s[|s| - 1]) then StripRight(s[..|s| - 1]) else s
  }

  /** Python's `strip()`. */
  function Strip(s: string): string {
    StripRight(StripLeft(s))
  }

  /** The prefix an applier works with, from the configured one. */
  function NormalPrefix(configured: string): string {
    var p := Strip(configured);
    if p != "" && p[|p| - 1] == '/' then p else p + "/"
  }

  function DisplayName(prefix: string, id: int): string {
    StripSlashes(prefix) + "/" + Decimal(id)
  }

  predicate OneSlash(prefix: string) {
    && prefix != ""
    && prefix[|prefix| - 1] == '/'
    && (|prefix| > 1 ==> prefix[|prefix| - 2] != '/')
  }

  predicate EndsInTwoSlashes(s: string) {
    |s| > 1 && s[|s| - 1] == '/' && s[|s| - 2] == '/'
  }

  /** The listing's filter: the prefix, then decimal digits `[int]` accepts. */
  predicate IsListed(prefix: string, name: string) {
    && prefix <= name
    && AllDigits(name[|prefix|..])
    && ParseDigits(name[|prefix|..]) < INT_LIMIT
  }

  function ListedId(prefix: string, name: string): nat
    requires IsListed(prefix, name)
  {
    ParseDigits(name[|prefix|..])
  }

  predicate Listable(id: int) { 0 <= id < INT_LIMIT }

  function ListedIds(prefix: string, names: set<string>): set<int> {
    set n | n in names && IsListed(prefix, n) :: ListedId(prefix, n)
  }

  lemma {:induction false} DigitsRoundTrip(n: nat)
    ensures AllDigits(Digits(n)) && ParseDigits(Digits(n)) == n
    ensures |Digits(n)| > 1 ==> Digits(n)[0] != '0'
    ensures n > 0 ==> Digits(n)[0] != '0'
  {
    if n >= 10 {
      DigitsRoundTrip(n / 10);
      assert Digits(n)[..|Digits(n)| - 1] == Digits(n / 10);
    }
  }

  lemma DigitsAppend(m: nat, d: nat)
    requires m > 0 && d < 10
    ensures Digits(10 * m + d) == Digits(m) + [DigitChar(d)]
  {
    assert (10 * m + d) / 10 == m && (10 * m + d) % 10 == d;
  }

  lemma DigitOfValue(c: char)
    requires IsDigit(c)
    ensures DigitValue(c) < 10 && DigitChar(DigitValue(c)) == c
  {
  }

  lemma ParseLast(t: string, last: char)
    requires AllDigits(t) && IsDigit(last)
    ensures AllDigits(t + [last]) && ParseDigits(t + [last]) == 10 * ParseDigits(t) + DigitValue(last)
  {
    assert (t + [last])[..|t|] == t;
  }

  lemma {:induction false} DigitsCanonical(s: string)
    requires AllDigits(s) && (|s| > 1 ==> s[0] != '0')
    ensures Digits(ParseDigits(s)) == s
    ensures s[0] != '0' ==> ParseDigits(s) > 0
  {
    var last := s[|s| - 1];
    DigitOfValue(last);
    if |s| > 1 {
      var t := s[..|s| - 1];
      assert s == t + [last] && t[0] == s[0];
      DigitsCanonical(t);
      ParseLast(t, last);
      DigitsAppend(ParseDigits(t), DigitValue(last));
    } else {
      assert s == [last];
    }
  }

  /** Different ids print different decimals, and only the non-negative ones are digits throughout. */
  lemma DecimalInjective(m: int, n: int)
    ensures AllDigits(Decimal(n)) <==> n >= 0
    ensures Decimal(m) == Decimal(n) ==> m == n
  {
    DigitsRoundTrip(if m < 0 then -m else m);
    DigitsRoundTrip(if n < 0 then -n else n);
    if n < 0 {
      assert !IsDigit(Decimal(n)[0]);
    }
    if m < 0 {
      assert !IsDigit(Decimal(m)[0]);
      assert Decimal(m)[1..] == Digits(-m);
    }
    if n < 0 {
      assert Decimal(n)[1..] == Digits(-n);
    }
  }

  lemma DecimalSample()
    ensures Decimal(-1209) == "-1209"
  {
    assert Digits(1) == "1";
    assert Digits(12) == Digits(1) + "2";
    assert Digits(120) == Digits(12) + "0";
    assert Digits(1209) == Digits(120) + "9";
  }

  lemma DisplayNameInjective(prefix: string, m: int, n: int)
    ensures DisplayName(prefix, m) == DisplayName(prefix, n) ==> m == n
  {
    var k := |StripSlashes(prefix)| + 1;
    assert DisplayName(prefix, m)[k..] == Decimal(m);
    assert DisplayName(prefix, n)[k..] == Decimal(n);
    DecimalInjective(m, n);
  }

  lemma OneSlashName(prefix: string, id: int)
    requires OneSlash(prefix)
    ensures DisplayName(prefix, id) == prefix + Decimal(id)
  {
    var p := prefix[..|prefix| - 1];
    assert StripSlashes(prefix) == p;
    assert prefix == p + "/";
  }

  /**
   The prefix in use ends in exactly one slash if and only if the trimmed configured
   one does not end in two; the names printed do not depend on a trailing slash.
   */
  lemma NormalPrefixOneSlash(configured: string)
    ensures var p := NormalPrefix(configured);
            && p != "" && p[|p| - 1] == '/'
            && (OneSlash(p) <==> !EndsInTwoSlashes(Strip(configured)))
            && StripSlashes(p) == StripSlashes(Strip(configured))
  {
    var trimmed := Strip(configured);
    assert (trimmed + "/")[..|trimmed|] == trimmed;
  }

  lemma {:induction false} StripLeftTrims(s: string)
    ensures StripLeft(s) != "" ==> !IsSpace(StripLeft(s)[0])
  {
    if s != "" && IsSpace(s[0]) {
      StripLeftTrims(s[1..]);
    }
  }

  lemma {:induction false} StripRightTrims(s: string)
    ensures StripRight(s) <= s
    ensures StripRight(s) != "" ==> !IsSpace(StripRight(s)[|StripRight(s)| - 1])
  {
    if s != "" && IsSpace(s[|s| - 1]) {
      StripRightTrims(s[..|s| - 1]);
    }
  }

  lemma {:induction false} StripRightSpaces(s: string)
    ensures forall i :: |StripRight(s)| <= i < |s| ==> IsSpace(s[i])
  {
    StripRightTrims(s);
    if s != "" && IsSpace(s[|s| - 1]) {
      StripRightSpaces(s[..|s| - 1]);
    }
  }

  lemma {:induction false} StripLeftSpaces(s: string) returns (k: nat)
    ensures k <= |s| && StripLeft(s) == s[k..]
    ensures forall i :: 0 <= i < k ==> IsSpace(s[i])
  {
    k := 0;
    if s != "" && IsSpace(s[0]) {
      k := StripLeftSpaces(s[1..]);
      k := k + 1;
      assert forall i :: 0 < i < k ==> s[i] == s[1..][i - 1];
    }
  }

  /** Trimming takes the spaces off both ends, all of them and nothing else. */
  lemma StripExactly(s: string) returns (k: nat)
    ensures k + |Strip(s)| <= |s| && Strip(s) == s[k..k + |Strip(s)|]
    ensures forall i :: 0 <= i < k || k + |Strip(s)| <= i < |s| ==> IsSpace(s[i])
    ensures Strip(s) != "" ==> !IsSpace(Strip(s)[0]) && !IsSpace(Strip(s)[|Strip(s)| - 1])
  {
    k := StripLeftSpaces(s);
    StripLeftTrims(s);
    StripRightTrims(StripLeft(s));
    StripRightSpaces(StripLeft(s));
    assert forall i :: k + |Strip(s)| <= i < |s| ==> s[i] == StripLeft(s)[i - k];
  }

  /** Trimmed text stays as it is when trimmed again. */
  lemma StripIdempotent(s: string)
    ensures Strip(Strip(s)) == Strip(s)
  {
    StripLeftTrims(s);
    StripRightTrims(StripLeft(s));
    assert StripLeft(Strip(s)) == Strip(s);
  }

  lemma {:induction false} StripSlashesShape(s: string)
    ensures StripSlashes(s) <= s
    ensures forall i :: |StripSlashes(s)| <= i < |s| ==> s[i] == '/'
  {
    if s != "" && s[|s| - 1] == '/' {
      StripSlashesShape(s[..|s| - 1]);
    }
  }

  /**
   A printed name is found again, under the id it was printed for, exactly when
   the prefix ends in one slash only and the id fits a non-negative `[int]`.
   */
  lemma PrintedNameListed(prefix: string, id: int)
    requires prefix != "" && prefix[|prefix| - 1] == '/'
    ensures IsListed(prefix, DisplayName(prefix, id)) && ListedId(prefix, DisplayName(prefix, id)) == id
            <==> OneSlash(prefix) && 0 <= id < 0x8000_0000
  {
    var name := DisplayName(prefix, id);
    if OneSlash(prefix) {
      OneSlashName(prefix, id);
      assert name[|prefix|..] == Decimal(id);
      DecimalInjective(id, id);
      if id >= 0 {
        DigitsRoundTrip(id);
      }
    } else {
      StripSlashesShape(prefix);
      var k := |StripSlashes(prefix)|;
      var p := prefix[..|prefix| - 1];
      assert p[|p| - 1] == '/';
      assert StripSlashes(prefix) == StripSlashes(p) == StripSlashes(p[..|p| - 1]);
      StripSlashesShape(p[..|p| - 1]);
      assert k + 1 < |prefix| && prefix[k + 1] == '/';
      assert name[k + 1] == Decimal(id)[0];
      DigitsRoundTrip(if id < 0 then -id else id);
      assert name[k + 1] != '/' by {
        if id >= 0 { assert IsDigit(Digits(id)[0]); }
      }
    }
  }

  /**
   A listed name is the printed name of the id it yields exactly when its digits
   carry no leading zero.
   */
  lemma ListedNamePrinted(prefix: string, name: string)
    requires OneSlash(prefix) && IsListed(prefix, name)
    ensures var rest := name[|prefix|..];
            DisplayName(prefix, ListedId(prefix, name)) == name <==> (|rest| > 1 ==> rest[0] != '0')
  {
    var rest := name[|prefix|..];
    assert name == prefix + rest;
    OneSlashName(prefix, ListedId(prefix, name));
    DigitsRoundTrip(ListedId(prefix, name));
    if |rest| > 1 ==> rest[0] != '0' {
      DigitsCanonical(rest);
    } else {
      assert (prefix + Decimal(ListedId(prefix, name)))[|prefix|..] == Decimal(ListedId(prefix, name));
    }
  }

  /**
   Listing recovers exactly the ids whose printed names are present if and only
   if no name with leading zeros stands in for a printed name that is absent.
   */
  lemma ListingRoundTrip(prefix: string, names: set<string>)
    requires OneSlash(prefix)
    ensures (forall id :: id in ListedIds(prefix, names) <==> Listable(id) && DisplayName(prefix, id) in names)
            <==> (forall n :: n in names && IsListed(prefix, n) ==> DisplayName(prefix, ListedId(prefix, n)) in names)
  {
    forall id | Listable(id) && DisplayName(prefix, id) in names
      ensures id in ListedIds(prefix, names)
    {
      PrintedNameListed(prefix, id);
    }
    forall n | n in names && IsListed(prefix, n)
      ensures ListedId(prefix, n) in ListedIds(prefix, names)
    {
    }
  }
}
