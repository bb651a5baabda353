/**
 * `pagepile_url(id)` of app.py: the PagePile API address of a pile, with the id
 * written as Python's `%d` writes an int (decimal digits, a leading '-' when negative).
 */
module PagepileUrls {
  const UrlPrefix: string := "https://pagepile.toolforge.org/api.php?action=get_data&id="
  const UrlSuffix: string := "&format=html"

  predicate IsDigit(c: char)
  {
    '0' <= c <= '9'
  }

  predicate AllDigits(s: string)
  {
    forall i :: 0 <= i < |s| ==> IsDigit(s[i])
  }

  function DigitChar(d: nat): (c: char)
    requires d < 10
    ensures IsDigit(c) && c as int - '0' as int == d
  {
    ('0' as int + d) as char
  }

  /** The decimal digits of `n`, most significant first, without leading zeros. */
  function NatToDecimal(n: nat): (s: string)
    ensures |s| > 0 && AllDigits(s)
    ensures s[0] == '0' ==> n == 0
  {
    if n < 10 then [DigitChar(n)] else NatToDecimal(n / 10) + [DigitChar(n % 10)]
  }

  /** The value of a string of decimal digits. */
  function DecimalToNat(s: string): nat
    requires AllDigits(s)
  {
    if |s| == 0 then 0
    else DecimalToNat(s[..|s| - 1]) * 10 + (s[|s| - 1] as int - '0' as int)
  }

  lemma {:induction false} DecimalRoundTrip(n: nat)
    ensures DecimalToNat(NatToDecimal(n)) == n
  {
    if n >= 10 {
      var s := NatToDecimal(n);
      assert s[..|s| - 1] == NatToDecimal(n / 10);
      DecimalRoundTrip(n / 10);
    }
  }

  /** `'%d' % i`. */
  function FormatInt(i: int): (s: string)
    ensures |s| > 0
    ensures s[0] == '-' <==> i < 0
  {
    if i < 0 then "-" + NatToDecimal(-i) else NatToDecimal(i)
  }

  /** Reads back what `FormatInt` writes. */
  function ParseInt(s: string): int
    requires |s| > 0
    requires if s[0] == '-' then AllDigits(s[1..]) else AllDigits(s)
  {
    var magnitude: int := if s[0] == '-' then DecimalToNat(s[1..]) else DecimalToNat(s);
    if s[0] == '-' then -magnitude else magnitude
  }

  lemma FormatIntRoundTrip(i: int)
    ensures var s := FormatInt(i);
      (if s[0] == '-' then AllDigits(s[1..]) else AllDigits(s)) && ParseInt(s) == i
  {
    if i < 0 {
      assert FormatInt(i)[1..] == NatToDecimal(-i);
      DecimalRoundTrip(-i);
    } else {
      DecimalRoundTrip(i);
    }
  }

  /** `pagepile_url(id)`. */
  function PagepileUrl(id: int): (url: string)
    ensures |url| == |UrlPrefix| + |FormatInt(id)| + |UrlSuffix|
    ensures url[..|UrlPrefix|] == UrlPrefix
    ensures url[|url| - |UrlSuffix|..] == UrlSuffix
    ensures url[|UrlPrefix|..|url| - |UrlSuffix|] == FormatInt(id)
  {
    var url := UrlPrefix + FormatInt(id) + UrlSuffix;
    assert url[..|UrlPrefix|] == UrlPrefix;
    assert url[|url| - |UrlSuffix|..] == UrlSuffix;
    assert url[|UrlPrefix|..|url| - |UrlSuffix|] == FormatInt(id);
    url
  }

  /** Distinct piles get distinct URLs: the id can be read back from the URL. */
  lemma PagepileUrlInjective(a: int, b: int)
    ensures PagepileUrl(a) == PagepileUrl(b) <==> a == b
  {
    if PagepileUrl(a) == PagepileUrl(b) {
      var u := PagepileUrl(a);
      assert FormatInt(a) == u[|UrlPrefix|..|u| - |UrlSuffix|] == FormatInt(b);
      FormatIntRoundTrip(a);
      FormatIntRoundTrip(b);
    }
  }
}
