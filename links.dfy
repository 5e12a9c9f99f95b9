/** The bookmarks page (src/components/views/LinksView.tsx): a one-field form that
    turns what the user typed into a link, the listing of links that are not
    archived, and the domain a card shows. The browser's URL parser is a
    parameter: `parseHost(url)` is `Some(hostname)` when `new URL(url)` accepts
    `url` and `None` when it throws. */
module Links {
  import opened Common
  import opened Types
  import opened Store
  import Archive

  // ---------------------------------------------------------------------------
  // String.prototype.replace with a string pattern
  // ---------------------------------------------------------------------------

  /** No occurrence of `pat` starts before position `k`. */
  predicate NoEarlierMatch(s: string, pat: string, k: nat)
    requires k <= |s|
  {
    forall j :: 0 <= j < k ==> !StartsWith(s[j..], pat)
  }

  /** `s.replace(pat, rep)` for a string `pat`: only the first occurrence is
      replaced. */
  function ReplaceFirst(s: string, pat: string, rep: string): (r: string)
    requires pat != []
    decreases |s|
  {
    if StartsWith(s, pat) then rep + s[|pat|..]
    else if s == [] then []
    else [s[0]] + ReplaceFirst(s[1..], pat, rep)
  }

  /** The replacement happens at the leftmost occurrence and nowhere else. */
  lemma {:induction false} ReplaceFirstAt(s: string, pat: string, rep: string, k: nat)
    requires pat != [] && k + |pat| <= |s| && s[k..k + |pat|] == pat && NoEarlierMatch(s, pat, k)
    ensures ReplaceFirst(s, pat, rep) == s[..k] + rep + s[k + |pat|..]
    decreases k
  {
    if k > 0 {
      NoEarlierMatchTail(s, pat, k);
      ReplaceFirstStep(s, pat, rep);
      ReplaceFirstAt(s[1..], pat, rep, k - 1);
      PrependSplice(s, k, |pat|, rep);
    } else {
      assert s[..|pat|] == pat;
      assert s[..k] + rep + s[k + |pat|..] == rep + s[|pat|..];
    }
  }

  /** Where no occurrence starts, the first character is kept. */
  lemma ReplaceFirstStep(s: string, pat: string, rep: string)
    requires pat != [] && s != [] && !StartsWith(s, pat)
    ensures ReplaceFirst(s, pat, rep) == [s[0]] + ReplaceFirst(s[1..], pat, rep)
  {
  }

  /** Splicing `rep` into the tail of `s` and putting the head back is splicing
      it into `s` one place further on. */
  lemma PrependSplice(s: string, k: nat, n: nat, rep: string)
    requires 0 < k && k + n <= |s|
    ensures [s[0]] + (s[1..][..k - 1] + rep + s[1..][k - 1 + n..]) == s[..k] + rep + s[k + n..]
  {
    assert [s[0]] + s[1..][..k - 1] == s[..k];
    assert s[1..][k - 1 + n..] == s[k + n..];
  }

  /** Before the first occurrence, the scan moves one character on and the
      occurrence is still the first one of the rest. */
  lemma NoEarlierMatchTail(s: string, pat: string, k: nat)
    requires 0 < k && k + |pat| <= |s| && s[k..k + |pat|] == pat && NoEarlierMatch(s, pat, k)
    ensures !StartsWith(s, pat)
    ensures s[1..][k - 1..k - 1 + |pat|] == pat && NoEarlierMatch(s[1..], pat, k - 1)
  {
    assert s[0..] == s;
    var t := s[1..];
    forall j | 0 <= j < k - 1
      ensures !StartsWith(t[j..], pat)
    {
      assert t[j..] == s[j + 1..];
    }
  }

  /** Without an occurrence nothing is replaced. */
  lemma {:induction false} ReplaceFirstAbsent(s: string, pat: string, rep: string)
    requires pat != [] && !Contains(s, pat)
    ensures ReplaceFirst(s, pat, rep) == s
    decreases |s|
  {
    if s != [] {
      ReplaceFirstAbsent(s[1..], pat, rep);
    }
  }

  // ---------------------------------------------------------------------------
  // The domain of a host
  // ---------------------------------------------------------------------------

  const WwwPrefix := "www."

  /** `hostname.replace('www.', '')`, as the page and the metadata hook write it:
      the first "www." anywhere in the host is cut out. */
  function DomainAsWritten(host: string): string {
    ReplaceFirst(host, WwwPrefix, "")
  }

  /** The domain of a host: the host without a leading "www.". */
  function Domain(host: string): (r: string)
    ensures StartsWith(host, WwwPrefix) ==> host == WwwPrefix + r
    ensures !StartsWith(host, WwwPrefix) ==> r == host
  {
    if StartsWith(host, WwwPrefix) then host[|WwwPrefix|..] else host
  }

  /** For a host that starts with "www." or does not contain it at all, the code
      as written computes the domain. */
  lemma DomainAsWrittenAgrees(host: string)
    requires StartsWith(host, WwwPrefix) || !Contains(host, WwwPrefix)
    ensures DomainAsWritten(host) == Domain(host)
  {
    if !StartsWith(host, WwwPrefix) {
      ReplaceFirstAbsent(host, WwwPrefix, "");
    }
  }

  /** A "www." inside the host is cut out as well: `awww.io` becomes `aio`, a
      different site, whose favicon the new link then shows. */
  lemma InnerWwwCutOut()
    ensures DomainAsWritten("awww.io") == "aio"
    ensures Domain("awww.io") == "awww.io"
  {
    var host := "awww.io";
    assert !StartsWith(host, WwwPrefix);
    assert host[1..] == "www.io" && StartsWith(host[1..], WwwPrefix);
    assert host[1..][|WwwPrefix|..] == "io";
  }

  // ---------------------------------------------------------------------------
  // Adding a link
  // ---------------------------------------------------------------------------

  /** Input that does not start with "http" gets an "https://" scheme; anything
      else is kept as typed, spaces included. */
  function NormalizeUrl(input: string): (url: string)
    ensures StartsWith(url, "http")
    ensures |input| <= |url| && url[|url| - |input|..] == input
    ensures StartsWith(input, "http") ==> url == input
  {
    if StartsWith(input, "http") then input else "https://" + input
  }

  /** Normalizing twice is normalizing once. */
  lemma NormalizeIdempotent(input: string)
    ensures NormalizeUrl(NormalizeUrl(input)) == NormalizeUrl(input)
  {
  }

  const FaviconPrefix := "https://www.google.com/s2/favicons?domain="
  const FaviconSuffix := "&sz=64"

  /** The Google favicon service's address for a domain, at 64 pixels. */
  function Favicon(domain: string): (r: string)
    ensures StartsWith(r, FaviconPrefix) && |r| == |FaviconPrefix| + |domain| + |FaviconSuffix|
    ensures r[|FaviconPrefix|..|r| - |FaviconSuffix|] == domain
  {
    var r := FaviconPrefix + domain + FaviconSuffix;
    assert r[..|FaviconPrefix|] == FaviconPrefix;
    r
  }

  /** Different domains get different favicon addresses. */
  lemma FaviconInjective(a: string, b: string)
    requires Favicon(a) == Favicon(b)
    ensures a == b
  {
  }

  /** What pressing "Save" does with the typed text. */
  datatype AddAttempt =
    | Ignored                   // whitespace only: nothing happens
    | Rejected                  // the URL parser throws: "Please enter a valid URL"
    | Saved(data: LinkData)     // `addLink(data)`: "Link saved!"

  /** The link record built for a URL whose host is `host`: the host with its
      first "www." cut out, as the page writes it, names the link and its icon. */
  function LinkDataFor(url: string, host: string): LinkData {
    var domain := DomainAsWritten(host);
    LinkData(url, domain, "", Favicon(domain), None, [], false)
  }

  /** `handleAddLink`'s decision. */
  function AddLinkAttempt(input: string, parseHost: string -> Option<string>): (r: AddAttempt)
    ensures r.Ignored? <==> IsBlank(input)
    ensures r.Rejected? <==> !IsBlank(input) && parseHost(NormalizeUrl(input)).None?
    ensures r.Saved? ==>
      (r.data.url == NormalizeUrl(input) && parseHost(r.data.url).Some? &&
       r.data.title == DomainAsWritten(parseHost(r.data.url).value) &&
       r.data.favicon == Favicon(r.data.title) &&
       r.data.description == "" && r.data.collection == None && r.data.tags == [] && !r.data.archived)
  {
    if IsBlank(input) then Ignored
    else
      var url := NormalizeUrl(input);
      match parseHost(url)
      case None => Rejected
      case Some(host) => Saved(LinkDataFor(url, host))
  }

  /** The form itself keeps the rule as written: a link to `awww.io` is saved
      under the name and the icon of `aio`. */
  lemma InnerWwwSavedAsWritten(input: string, parseHost: string -> Option<string>)
    requires !IsBlank(input) && parseHost(NormalizeUrl(input)) == Some("awww.io")
    ensures AddLinkAttempt(input, parseHost).Saved?
    ensures AddLinkAttempt(input, parseHost).data.title == "aio"
    ensures AddLinkAttempt(input, parseHost).data.favicon == Favicon("aio")
  {
    InnerWwwCutOut();
  }

  /** The form's state: the text field and the "saving" flag that disables the
      button. */
  class LinkForm {
    var newUrl: string
    var isAdding: bool

    constructor()
      ensures newUrl == "" && !isAdding
    {
      newUrl, isAdding := "", false;
    }

    method SetNewUrl(text: string)
      modifies this
      ensures newUrl == text && isAdding == old(isAdding)
    {
      newUrl := text;
    }

    /** `handleAddLink`. Blank input returns before anything happens. Otherwise
        `isAdding` is raised for the attempt and lowered again at the end,
        whether the link was saved or the URL was rejected; the text field is
        cleared only when the link was saved. */
    method HandleAddLink(store: AppStore, parseHost: string -> Option<string>, id: Id, now: Time)
      returns (attempt: AddAttempt)
      requires store.Valid() && FreshId(store.links, LinkId, id)
      modifies this, store
      ensures attempt == AddLinkAttempt(old(newUrl), parseHost)
      ensures store.Valid()
      ensures attempt.Saved? ==>
        (store.Snapshot() == old(store.Snapshot()).(links := [NewLink(attempt.data, id, now)] + old(store.links)) &&
         newUrl == "")
      ensures !attempt.Saved? ==> store.Snapshot() == old(store.Snapshot()) && newUrl == old(newUrl)
      ensures attempt.Ignored? ==> isAdding == old(isAdding)
      ensures !attempt.Ignored? ==> !isAdding
    {
      if IsBlank(newUrl) {
        return Ignored;
      }
      isAdding := true;
      var url := NormalizeUrl(newUrl);
      var host := parseHost(url);
      if host.None? {
        attempt := Rejected;
      } else {
        var data := LinkDataFor(url, host.value);
        store.AddLink(data, id, now);
        newUrl := "";
        attempt := Saved(data);
      }
      isAdding := false;
    }
  }

  // ---------------------------------------------------------------------------
  // The listing and the cards
  // ---------------------------------------------------------------------------

  predicate IsActiveLink(l: Link) { !l.archived }

  /** `activeLinks`: the links that are not archived, in store order. */
  function ActiveLinks(links: seq<Link>): seq<Link> {
    Filter(links, IsActiveLink)
  }

  /** The listing and the archive split the links between them. */
  lemma ActiveAndArchivedPartition(links: seq<Link>)
    ensures multiset(ActiveLinks(links)) + multiset(Archive.ArchivedLinks(links)) == multiset(links)
    ensures forall i :: 0 <= i < |ActiveLinks(links)| ==> ActiveLinks(links)[i] !in Archive.ArchivedLinks(links)
  {
    FilterPartition(links, IsActiveLink, Archive.IsArchivedLink);
  }

  /** A saved link heads the listing, in front of the links listed before. */
  lemma SavedLinkListedFirst(links: seq<Link>, input: string, parseHost: string -> Option<string>, id: Id, now: Time)
    requires AddLinkAttempt(input, parseHost).Saved?
    ensures var l := NewLink(AddLinkAttempt(input, parseHost).data, id, now);
      ActiveLinks([l] + links) == [l] + ActiveLinks(links)
  {
    var l := NewLink(AddLinkAttempt(input, parseHost).data, id, now);
    assert ([l] + links)[1..] == links;
  }

  /** A card's domain: the URL's host with its first "www." cut out, or the URL
      itself when the parser rejects it. */
  function CardDomain(url: string, parseHost: string -> Option<string>): (r: string)
    ensures parseHost(url).None? ==> r == url
    ensures parseHost(url).Some? ==> r == DomainAsWritten(parseHost(url).value)
  {
    match parseHost(url)
    case None => url
    case Some(host) => DomainAsWritten(host)
  }

  /** A card's heading: the title whenever there is one, else the domain. */
  function CardTitle(l: Link, parseHost: string -> Option<string>): (r: string)
    ensures l.title != "" ==> r == l.title
    ensures l.title == "" ==> r == CardDomain(l.url, parseHost)
  {
    if l.title == "" then CardDomain(l.url, parseHost) else l.title
  }

  /** The card of a link saved through the form heads it with the domain the
      form derived, with the same parser. */
  lemma SavedLinkCardShowsDomain(input: string, parseHost: string -> Option<string>, id: Id, now: Time)
    requires AddLinkAttempt(input, parseHost).Saved?
    ensures var data := AddLinkAttempt(input, parseHost).data;
      CardTitle(NewLink(data, id, now), parseHost) == data.title == CardDomain(data.url, parseHost)
  {
  }
}
