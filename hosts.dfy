/**
 * The hostname registry of backend/parsers/index.js (`getParser`): an exact
 * lookup of the URL's hostname in a two-entry table. It is a registry of its
 * own, separate from the substring-matching one in `Scraper`.
 *
 * Hostname extraction (`new URL(url).hostname`) is a parameter: `None` when
 * the URL constructor throws.
 */
module Hosts {
  import opened Wrappers
  import opened Text
  import Scraper

  /** The two parser modules the table refers to (books.js and quotes.js). */
  datatype ParserModule = ParseBooks | ParseQuotes

  /** `new URL(url).hostname`, or `None` when the URL does not parse. */
  type HostnameOf = string -> Option<string>

  const BooksHost: string := "books.toscrape.com"
  const QuotesHost: string := "quotes.toscrape.com"

  /** The `parsers` object, as a finite map (inherited object properties left out). */
  const Table: map<string, ParserModule> := map[BooksHost := ParseBooks, QuotesHost := ParseQuotes]

  /** `getParser(url)`: the table entry for the hostname, or `None` when there is
      none or the URL does not parse; it never throws. */
  function GetParser(hostname: HostnameOf, url: string): (r: Option<ParserModule>)
    ensures r.Some? ==> hostname(url).Some? && hostname(url).value in Table && Table[hostname(url).value] == r.value
  {
    match hostname(url)
    case None => None
    case Some(h) => if h in Table then Some(Table[h]) else None
  }

  /** The books parser is returned exactly for the hostname books.toscrape.com,
      the quotes parser exactly for quotes.toscrape.com, and nothing otherwise. */
  lemma GetParserExact(hostname: HostnameOf, url: string)
    ensures GetParser(hostname, url) == Some(ParseBooks) <==> hostname(url) == Some(BooksHost)
    ensures GetParser(hostname, url) == Some(ParseQuotes) <==> hostname(url) == Some(QuotesHost)
    ensures GetParser(hostname, url) == None <==>
              hostname(url).None? || (hostname(url).value != BooksHost && hostname(url).value != QuotesHost)
  {
  }

  /** A pattern occurring inside a longer one occurs wherever the longer one does. */
  lemma IncludesSuffix(s: string, prefix: string, pat: string)
    requires Includes(s, prefix + pat)
    ensures Includes(s, pat)
  {
    var i := IndexOf(s, prefix + pat).value;
    var j := i + |prefix|;
    assert s[j..j + |pat|] == (prefix + pat)[|prefix|..];
    assert OccursAt(s, pat, j);
    IncludesIff(s, pat);
  }

  /**
   * The two registries disagree on subdomains: for a URL whose hostname is
   * www.books.toscrape.com (and whose text therefore contains it), the
   * hostname lookup finds nothing while the substring match picks books.
   */
  lemma SubdomainDisagreement(hostname: HostnameOf, url: string)
    requires hostname(url) == Some("www." + BooksHost)
    requires Includes(url, "www." + BooksHost)
    ensures GetParser(hostname, url) == None
    ensures Scraper.Choose(url) == Some(Scraper.Books)
  {
    IncludesSuffix(url, "www.", BooksHost);
    Scraper.BooksFirst(url);
  }
}
