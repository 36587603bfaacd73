/** Cache keys and their text form. */
module CacheKeys {
  import opened Transactions

  datatype CacheKey =
    | TransactionQuery(address: Address, startTime: int, endTime: int, offset: int, limit: int)
    | AddressTracked(address: Address)

  // ---------------------------------------------------------------- decimal integers

  predicate IsDigit(c: char) {
    '0' <= c <= '9'
  }

  function DigitChar(d: nat): char
    requires d < 10
  {
    d as char + '0'
  }

  function Digits(n: nat): (s: string)
    ensures s != [] && forall i :: 0 <= i < |s| ==> IsDigit(s[i])
  {
    (if n < 10 then [] else Digits(n / 10)) + [DigitChar(n % 10)]
  }

  function Decimal(n: int): string {
    if n < 0 then ['-'] + Digits(-n) else Digits(n)
  }

  /** The value of a digit string, read from the right. */
  function Value(s: string): nat
    requires forall i :: 0 <= i < |s| ==> IsDigit(s[i])
  {
    if s == [] then 0
    else
      assert IsDigit(s[|s| - 1]);
      10 * Value(s[..|s| - 1]) + (s[|s| - 1] as int - '0' as int)
  }

  function ParseInt(s: string): Option<int> {
    var negative := s != [] && s[0] == '-';
    var digits := if negative then s[1..] else s;
    if digits != [] && forall i :: 0 <= i < |digits| ==> IsDigit(digits[i])
    then Some((if negative then -1 else 1) * Value(digits)) else None
  }

  lemma {:induction false} ValueOfDigits(n: nat)
    ensures Value(Digits(n)) == n
  {
    var s := Digits(n);
    assert s[..|s| - 1] == if n < 10 then [] else Digits(n / 10);
    if n >= 10 {
      ValueOfDigits(n / 10);
    }
  }

  lemma ParseDecimal(n: int)
    ensures ParseInt(Decimal(n)) == Some(n) && ':' !in Decimal(n)
  {
    hide Value;
    var digits := Digits(if n < 0 then -n else n);
    ValueOfDigits(if n < 0 then -n else n);
    assert IsDigit(digits[0]);
    if n < 0 {
      assert Decimal(n)[1..] == digits;
    }
  }

  // ---------------------------------------------------------------- keys

  function Display(k: CacheKey): string {
    match k
    case TransactionQuery(address, startTime, endTime, offset, limit) =>
      "tx:" + address + ":" + Decimal(startTime) + ":" + Decimal(endTime) + ":" + Decimal(offset) + ":" + Decimal(limit)
    case AddressTracked(address) =>
      "addr:" + address
  }

  /** Everything before the last colon, and everything after it. */
  function SplitLast(s: string): Option<(string, string)> {
    if s == [] then None
    else if s[|s| - 1] == ':' then Some((s[..|s| - 1], []))
    else match SplitLast(s[..|s| - 1])
      case Some((before, after)) => Some((before, after + [s[|s| - 1]]))
      case None => None
  }

  lemma {:induction false} SplitLastInverts(before: string, after: string)
    requires ':' !in after
    ensures SplitLast(before + ":" + after) == Some((before, after))
    decreases |after|
  {
    var s := before + ":" + after;
    if after == [] {
      assert s[..|s| - 1] == before;
    } else {
      var init := after[..|after| - 1];
      assert s[..|s| - 1] == before + ":" + init;
      assert after == init + [after[|after| - 1]];
      SplitLastInverts(before, init);
    }
  }

  /** One field is peeled off the right end: the rest of the text, and the number. */
  function Peel(s: string): Option<(string, int)> {
    match SplitLast(s)
    case None => None
    case Some((before, after)) =>
      match ParseInt(after)
      case None => None
      case Some(n) => Some((before, n))
  }

  lemma PeelInverts(before: string, n: int)
    ensures Peel(before + ":" + Decimal(n)) == Some((before, n))
  {
    ParseDecimal(n);
    SplitLastInverts(before, Decimal(n));
  }

  /** The parser works from right to left, so colons inside the address do not confuse it. */
  function Parse(s: string): Option<CacheKey> {
    if |s| >= 5 && s[..5] == "addr:" then Some(AddressTracked(s[5..]))
    else
      match Peel(s)
      case None => None
      case Some((s1, limit)) =>
        match Peel(s1)
        case None => None
        case Some((s2, offset)) =>
          match Peel(s2)
          case None => None
          case Some((s3, endTime)) =>
            match Peel(s3)
            case None => None
            case Some((s4, startTime)) =>
              if |s4| >= 3 && s4[..3] == "tx:"
              then Some(TransactionQuery(s4[3..], startTime, endTime, offset, limit)) else None
  }

  /** Parsing undoes printing, for every address and all integers, negative ones included. */
  lemma ParseDisplay(k: CacheKey)
    ensures Parse(Display(k)) == Some(k)
  {
    var s := Display(k);
    match k
    case AddressTracked(address) =>
      assert s[..5] == "addr:" && s[5..] == address;
    case TransactionQuery(address, startTime, endTime, offset, limit) =>
      var s4 := "tx:" + address;
      var s3 := s4 + ":" + Decimal(startTime);
      var s2 := s3 + ":" + Decimal(endTime);
      var s1 := s2 + ":" + Decimal(offset);
      assert s[0] == 't';
      PeelInverts(s1, limit);
      PeelInverts(s2, offset);
      PeelInverts(s3, endTime);
      PeelInverts(s4, startTime);
      assert s4[..3] == "tx:" && s4[3..] == address;
  }

  /** A number, and the texts of two keys, written out. */
  lemma DecimalExample()
    ensures Decimal(-120) == "-120"
  {
    assert Digits(1) == "1" && Digits(12) == Digits(1) + "2" && Digits(120) == Digits(12) + "0";
  }

  lemma DisplayExamples()
    ensures Display(TransactionQuery("abc", -1, 2, 0, 5)) == "tx:abc:-1:2:0:5"
    ensures Display(AddressTracked("abc")) == "addr:abc"
  {
    assert Decimal(-1) == "-1" && Decimal(2) == "2" && Decimal(0) == "0" && Decimal(5) == "5";
    hide *;
    DisplayText("abc", -1, 2, 0, 5);
    assert "tx:" + "abc" + ":" + "-1" + ":" + "2" + ":" + "0" + ":" + "5" == "tx:abc:-1:2:0:5";
    assert "addr:" + "abc" == "addr:abc";
  }

  lemma DisplayText(address: Address, startTime: int, endTime: int, offset: int, limit: int)
    ensures Display(TransactionQuery(address, startTime, endTime, offset, limit)) ==
      "tx:" + address + ":" + Decimal(startTime) + ":" + Decimal(endTime) + ":" + Decimal(offset) + ":" + Decimal(limit)
    ensures Display(AddressTracked(address)) == "addr:" + address
  {
  }

  /** Keys with the same text are the same key. */
  lemma DisplayInjective(j: CacheKey, k: CacheKey)
    requires Display(j) == Display(k)
    ensures j == k
  {
    ParseDisplay(j);
    ParseDisplay(k);
  }
}
