/** Listing-page URLs and the per-row link resolution `get_absolute_url`
    (SDGsAction.py:37-52, 206). */
module Links {
  import opened Options

  /** The `<a>` tag found in a row's span: its `href` attribute may be missing. */
  datatype Anchor = Anchor(href: Option<string>)

  /** The `span.field-content` of a listing row: its first `<a>` may be missing. */
  datatype FieldSpan = FieldSpan(anchor: Option<Anchor>)

  /** One `div.views-row` of a listing page, seen through the one lookup made on it. */
  datatype ListingRow = ListingRow(span: Option<FieldSpan>)

  /** `get_absolute_url(row, base_url)`, with `urljoin` passed in as `join`. */
  function AbsoluteUrl(row: ListingRow, baseUrl: string, join: (string, string) -> string): (r: Option<string>)
    ensures r.None? <==>
      row.span.None? || row.span.value.anchor.None? || row.span.value.anchor.value.href.None?
    ensures r.Some? ==> r.value == join(baseUrl, row.span.value.anchor.value.href.value)
  {
    match row.span
    case None => None
    case Some(span) =>
      match span.anchor
      case None => None
      case Some(a) =>
        match a.href
        case None => None
        case Some(href) => Some(join(baseUrl, href))
  }

  // ---------------------------------------------------------------------------
  // The listing URL for a page number
  // ---------------------------------------------------------------------------

  const ListingPrefix: string := "https://sdgs.un.org/partnerships/browse?page="

  function DigitChar(d: nat): char
    requires d < 10
  {
    "0123456789"[d]
  }

  /** The decimal digits of `n`, as Python's `str(n)` writes them. */
  function NatToDecimal(n: nat): (s: string)
    ensures s != [] && forall i :: 0 <= i < |s| ==> '0' <= s[i] <= '9'
    decreases n
  {
    if n < 10 then [DigitChar(n)] else NatToDecimal(n / 10) + [DigitChar(n % 10)]
  }

  /** Python's `str(i)` for an integer: a minus sign before the digits when negative. */
  function IntToDecimal(i: int): string {
    if i < 0 then "-" + NatToDecimal(-i) else NatToDecimal(i)
  }

  function DigitValue(c: char): nat {
    if '0' <= c <= '9' then (c as int - '0' as int) as nat else 0
  }

  /** Reads a string of decimal digits back as a number. */
  function ParseNat(s: string): nat {
    if s == [] then 0 else 10 * ParseNat(s[..|s| - 1]) + DigitValue(s[|s| - 1])
  }

  /** Reads an optionally signed decimal back as an integer. */
  function ParseInt(s: string): int {
    if s != [] && s[0] == '-' then -(ParseNat(s[1..]) as int) else ParseNat(s)
  }

  /** The listing URL of a page: the browse prefix with the page number less one as the
      query offset (SDGsAction.py:206). */
  function ListingUrl(page: int): string {
    ListingPrefix + IntToDecimal(page - 1)
  }

  lemma {:induction false} NatToDecimalRoundTrip(n: nat)
    ensures ParseNat(NatToDecimal(n)) == n
    decreases n
  {
    if n >= 10 {
      NatToDecimalRoundTrip(n / 10);
      var s := NatToDecimal(n);
      assert s[..|s| - 1] == NatToDecimal(n / 10);
      assert DigitValue(DigitChar(n % 10)) == n % 10;
    } else {
      assert DigitValue(DigitChar(n)) == n;
      assert [DigitChar(n)][..0] == [];
    }
  }

  lemma ParseIntSigned(d: string)
    requires d == [] || d[0] != '-'
    ensures ParseInt("-" + d) == -(ParseNat(d) as int)
    ensures ParseInt(d) == ParseNat(d)
  {
    var s := "-" + d;
    assert s[0] == '-' && s[1..] == d;
  }

  lemma IntToDecimalRoundTrip(i: int)
    ensures ParseInt(IntToDecimal(i)) == i
  {
    var d := NatToDecimal(if i < 0 then -i else i);
    NatToDecimalRoundTrip(if i < 0 then -i else i);
    ParseIntSigned(d);
  }

  /** The listing URL for a page carries the offset `page - 1` after the fixed prefix. */
  lemma ListingUrlOffset(page: int)
    ensures |ListingUrl(page)| > |ListingPrefix|
    ensures ListingUrl(page)[..|ListingPrefix|] == ListingPrefix
    ensures ParseInt(ListingUrl(page)[|ListingPrefix|..]) == page - 1
  {
    var u := ListingUrl(page);
    assert u[|ListingPrefix|..] == IntToDecimal(page - 1);
    IntToDecimalRoundTrip(page - 1);
  }

  /** Different page numbers are fetched from different listing URLs. */
  lemma ListingUrlInjective(p: int, q: int)
    requires ListingUrl(p) == ListingUrl(q)
    ensures p == q
  {
    ListingUrlOffset(p);
    ListingUrlOffset(q);
  }
}
