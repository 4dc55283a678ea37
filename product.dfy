/** The `Product` payload and its copy with a time-stamped unique name. */
module Products {
  import opened Wrappers

  /** A product as posted to "/products". */
  datatype Product = Product(name: string, price: int, stock: int)

  /** `new Product()`: empty name, zero price, zero stock. */
  function NewProduct(): (p: Product)
    ensures p.name == "" && p.price == 0 && p.stock == 0
  {
    Product("", 0, 0)
  }

  /** A local clock reading, to the second. */
  datatype DateTime = DateTime(year: int, month: int, day: int, hour: int, minute: int, second: int)

  /** The field ranges of a .NET `DateTime` (days per month are not checked). */
  predicate ValidDateTime(t: DateTime)
  {
    && 1 <= t.year <= 9999 && 1 <= t.month <= 12 && 1 <= t.day <= 31
    && 0 <= t.hour <= 23 && 0 <= t.minute <= 59 && 0 <= t.second <= 59
  }

  function Pow10(n: nat): (p: nat)
    ensures p >= 1
  {
    if n == 0 then 1 else 10 * Pow10(n - 1)
  }

  predicate IsDigit(c: char)
  {
    '0' <= c <= '9'
  }

  predicate AllDigits(s: string)
  {
    forall i :: 0 <= i < |s| ==> IsDigit(s[i])
  }

  /** The number a string of decimal digits spells. */
  function DigitsValue(s: string): nat
    requires AllDigits(s)
  {
    if s == [] then 0 else 10 * DigitsValue(s[..|s| - 1]) + (s[|s| - 1] - '0') as nat
  }

  /** `n` written with exactly `width` digits, zero-padded on the left. */
  function Digits(n: nat, width: nat): (s: string)
    requires n < Pow10(width)
    ensures |s| == width && AllDigits(s)
    ensures DigitsValue(s) == n
  {
    if width == 0 then ""
    else
      var s := Digits(n / 10, width - 1) + [(n % 10) as char + '0'];
      assert s[..|s| - 1] == Digits(n / 10, width - 1);
      s
  }

  /** Zero-padded digit strings are determined by their value and width. */
  lemma {:induction false} DigitsOfValue(s: string)
    requires AllDigits(s)
    ensures DigitsValue(s) < Pow10(|s|)
    ensures Digits(DigitsValue(s), |s|) == s
  {
    if s != [] {
      var init := s[..|s| - 1];
      DigitsOfValue(init);
      var n := DigitsValue(s);
      assert n / 10 == DigitsValue(init) && n % 10 == (s[|s| - 1] - '0') as int;
      assert s == init + [s[|s| - 1]];
    }
  }

  /** The "yyyyMMddHHmmss" rendering of a clock reading. */
  function Stamp(t: DateTime): (s: string)
    requires ValidDateTime(t)
    ensures |s| == 14 && AllDigits(s)
  {
    Digits(t.year, 4) + Digits(t.month, 2) + Digits(t.day, 2)
      + Digits(t.hour, 2) + Digits(t.minute, 2) + Digits(t.second, 2)
  }

  /** Reads a "yyyyMMddHHmmss" stamp back; `None` unless it is one. */
  function ParseStamp(s: string): Option<DateTime>
  {
    if |s| == 14 && AllDigits(s) then
      var t := DateTime(DigitsValue(s[0..4]), DigitsValue(s[4..6]), DigitsValue(s[6..8]),
                        DigitsValue(s[8..10]), DigitsValue(s[10..12]), DigitsValue(s[12..14]));
      if ValidDateTime(t) then Some(t) else None
    else None
  }

  /** Parsing a stamp gives back the clock reading it was made from. */
  lemma StampRoundTrip(t: DateTime)
    requires ValidDateTime(t)
    ensures ParseStamp(Stamp(t)) == Some(t)
  {
    var s := Stamp(t);
    assert s[0..4] == Digits(t.year, 4);
    assert s[4..6] == Digits(t.month, 2);
    assert s[6..8] == Digits(t.day, 2);
    assert s[8..10] == Digits(t.hour, 2);
    assert s[10..12] == Digits(t.minute, 2);
    assert s[12..14] == Digits(t.second, 2);
  }

  /** Every string `ParseStamp` accepts is the stamp of what it returns. */
  lemma ParseStampSound(s: string)
    requires ParseStamp(s).Some?
    ensures ValidDateTime(ParseStamp(s).value) && Stamp(ParseStamp(s).value) == s
  {
    var t := ParseStamp(s).value;
    var y, mo, d, h, mi, se := s[0..4], s[4..6], s[6..8], s[8..10], s[10..12], s[12..14];
    DigitsOfValue(y);
    DigitsOfValue(mo);
    DigitsOfValue(d);
    DigitsOfValue(h);
    DigitsOfValue(mi);
    DigitsOfValue(se);
    assert Digits(t.year, 4) == y && Digits(t.month, 2) == mo && Digits(t.day, 2) == d;
    assert Digits(t.hour, 2) == h && Digits(t.minute, 2) == mi && Digits(t.second, 2) == se;
    assert s == y + mo + d + h + mi + se;
  }

  /**
   * `WithUniqueName`: a new product named "<name> - <stamp>" with the same price and
   * stock; `now` is the clock reading taken at the call.
   */
  function WithUniqueName(p: Product, now: DateTime): (r: Product)
    requires ValidDateTime(now)
    ensures r.price == p.price && r.stock == p.stock
    ensures |r.name| == |p.name| + 3 + 14
    ensures r.name[..|p.name|] == p.name && r.name[|p.name|..|p.name| + 3] == " - "
  {
    Product(p.name + " - " + Stamp(now), p.price, p.stock)
  }

  /** The unique name determines both the original name and the clock reading. */
  lemma UniqueNameDecodes(p: Product, now: DateTime)
    requires ValidDateTime(now)
    ensures var name := WithUniqueName(p, now).name;
      && name[..|name| - 17] == p.name
      && ParseStamp(name[|name| - 14..]) == Some(now)
  {
    var name := WithUniqueName(p, now).name;
    assert name[|name| - 14..] == Stamp(now);
    StampRoundTrip(now);
  }
}
