/** The handler registry of the answer command and the filter that keeps the
    search results a registered handler can read. */
module Sources {
  import opened Wrappers
  import opened JsString

  /** The site-specific extraction rules, one per registry value. */
  datatype Handler =
    | StackOverflow | Gist | Wikipedia | WikiHow | FoodNetwork | StackExchange
    | KnowYourMeme | UrbanDictionary | BonAppetit | CookingNytimes

  /** The static hostname -> handler table. */
  const Registry: map<string, Handler> := map[
    "stackoverflow.com" := StackOverflow,
    "gist.github.com" := Gist,
    "en.wikipedia.org" := Wikipedia,
    "wikihow.com" := WikiHow,
    "foodnetwork.com" := FoodNetwork,
    "serverfault.com" := StackExchange,
    "superuser.com" := StackExchange,
    "askubuntu.com" := StackExchange,
    "mathoverflow.net" := StackExchange,
    "gamedev.stackexchange.com" := StackExchange,
    "gaming.stackexchange.com" := StackExchange,
    "webapps.stackexchange.com" := StackExchange,
    "photo.stackexchange.com" := StackExchange,
    "stats.stackexchange.com" := StackExchange,
    "anime.stackexchange.com" := StackExchange,
    "japanese.stackexchange.com" := StackExchange,
    "cooking.stackexchange.com" := StackExchange,
    "webmasters.stackexchange.com" := StackExchange,
    "english.stackexchange.com" := StackExchange,
    "math.stackexchange.com" := StackExchange,
    "apple.stackexchange.com" := StackExchange,
    "diy.stackexchange.com" := StackExchange,
    "ux.stackexchange.com" := StackExchange,
    "cstheory.stackexchange.com" := StackExchange,
    "money.stackexchange.com" := StackExchange,
    "softwareengineering.stackexchange.com" := StackExchange,
    "scifi.stackexchange.com" := StackExchange,
    "workplace.stackexchange.com" := StackExchange,
    "security.stackexchange.com" := StackExchange,
    "worldbuilding.stackexchange.com" := StackExchange,
    "literature.stackexchange.com" := StackExchange,
    "rpg.stackexchange.com" := StackExchange,
    "academia.stackexchange.com" := StackExchange,
    "electronics.stackexchange.com" := StackExchange,
    "retrocomputing.stackexchange.com" := StackExchange,
    "puzzling.stackexchange.com" := StackExchange,
    "travel.stackexchange.com" := StackExchange,
    "graphicdesign.stackexchange.com" := StackExchange,
    "networkengineering.stackexchange.com" := StackExchange,
    "islam.stackexchange.com" := StackExchange,
    "dba.stackexchange.com" := StackExchange,
    "knowyourmeme.com" := KnowYourMeme,
    "urbandictionary.com" := UrbanDictionary,
    "bonappetit.com" := BonAppetit,
    "cooking.nytimes.com" := CookingNytimes
  ]

  /** A parsed result link: what `new URL(...)` exposes as `href` and `hostname`. */
  datatype Url = Url(href: string, hostname: string)

  /** `hostname.replace('www.', '')`: the first `www.` is removed wherever it stands. */
  function RegistryKey(hostname: string): string
  {
    ReplaceFirst(hostname, "www.", "")
  }

  /** The registry has a handler for this link. */
  predicate Known(u: Url)
  {
    RegistryKey(u.hostname) in Registry
  }

  /** `VALID_SOURCES[url.hostname.replace('www.', '')]`: the handler, or
      `None` where JavaScript gives `undefined`. */
  function Lookup(u: Url): (h: Option<Handler>)
    ensures h.Some? <==> Known(u)
    ensures h.Some? ==> h.value == Registry[RegistryKey(u.hostname)]
  {
    var key := RegistryKey(u.hostname);
    if key in Registry then Some(Registry[key]) else None
  }

  /** A leading `www.` is dropped from the key. */
  lemma LeadingWwwStripped(rest: string)
    ensures RegistryKey("www." + rest) == rest
  {
    assert OccursAt("www." + rest, "www.", 0);
    ReplaceFirstSpec("www." + rest, "www.", "");
  }

  /** A hostname without `www.` is its own key. */
  lemma HostWithoutWww(hostname: string)
    requires forall j: nat :: !OccursAt(hostname, "www.", j)
    ensures RegistryKey(hostname) == hostname
  {
    ReplaceFirstSpec(hostname, "www.", "");
  }

  /** The first `www.` is removed even when it is not at the front: a host
      under `www.com` is routed to the gist handler. */
  lemma InnerWwwAccepted()
    ensures RegistryKey("gist.github.www.com") == "gist.github.com"
    ensures Known(Url("https://gist.github.www.com/", "gist.github.www.com"))
  {
    var h := "gist.github.www.com";
    assert h[..12] == "gist.github.";
    NoOccurrenceBefore(h, "www.", 12);
    assert OccursAt(h, "www.", 12);
    FirstOccurrence(h, "www.", 12);
    assert h[..12] + "" + h[16..] == "gist.github.com";
  }

  /** `sources.map(el => new URL(...))`: every result must parse, or the
      mapping throws (`None`); otherwise the links in document order. */
  function ParseAll(results: seq<Option<Url>>): (r: Option<seq<Url>>)
    ensures r.Some? <==> forall i :: 0 <= i < |results| ==> results[i].Some?
    ensures r.Some? ==> |r.value| == |results|
    ensures r.Some? ==> forall i :: 0 <= i < |results| ==> r.value[i] == results[i].value
  {
    if results == [] then Some([])
    else match (results[0], ParseAll(results[1..]))
      case (Some(u), Some(us)) => Some([u] + us)
      case _ => None
  }

  /** `urls.filter(keep)`. */
  function Filter(urls: seq<Url>, keep: Url -> bool): (r: seq<Url>)
    ensures |r| <= |urls|
    ensures forall u :: u in r <==> u in urls && keep(u)
  {
    if urls == [] then []
    else (if keep(urls[0]) then [urls[0]] else []) + Filter(urls[1..], keep)
  }

  /** `.filter(url => VALID_SOURCES[url.hostname.replace('www.', '')])`:
      keeps exactly the links whose registry key has a handler. */
  function FilterValid(urls: seq<Url>): (r: seq<Url>)
    ensures |r| <= |urls|
    ensures forall u :: u in r <==> u in urls && Known(u)
  {
    Filter(urls, Known)
  }

  /** The filter works element by element, so it keeps the original order:
      filtering a concatenation concatenates the filtered parts. */
  lemma {:induction false} FilterAppend(a: seq<Url>, b: seq<Url>, keep: Url -> bool)
    ensures Filter(a + b, keep) == Filter(a, keep) + Filter(b, keep)
  {
    if a == [] {
      assert a + b == b;
    } else {
      var head := if keep(a[0]) then [a[0]] else [];
      assert (a + b)[0] == a[0];
      assert (a + b)[1..] == a[1..] + b;
      FilterAppend(a[1..], b, keep);
      calc {
        Filter(a + b, keep);
        head + Filter(a[1..] + b, keep);
        head + (Filter(a[1..], keep) + Filter(b, keep));
        (head + Filter(a[1..], keep)) + Filter(b, keep);
      }
    }
  }

  /** The source filter preserves order: filtering a concatenation of result
      lists concatenates their filtered parts. */
  lemma FilterValidAppend(a: seq<Url>, b: seq<Url>)
    ensures FilterValid(a + b) == FilterValid(a) + FilterValid(b)
  {
    FilterAppend(a, b, Known);
  }

  /** A list whose every link has a handler passes the filter unchanged. */
  lemma {:induction false} FilterKeepsKnown(urls: seq<Url>, keep: Url -> bool)
    requires forall i :: 0 <= i < |urls| ==> keep(urls[i])
    ensures Filter(urls, keep) == urls
  {
    if urls != [] {
      FilterKeepsKnown(urls[1..], keep);
    }
  }

  /** A list in which no link has a handler filters to nothing. */
  lemma {:induction false} NoKnownFiltersToEmpty(urls: seq<Url>, keep: Url -> bool)
    requires forall i :: 0 <= i < |urls| ==> !keep(urls[i])
    ensures Filter(urls, keep) == []
  {
    if urls != [] {
      NoKnownFiltersToEmpty(urls[1..], keep);
    }
  }
}
