/** The table of regional service sites and the two lookups over it
    (`src/config/sites.ts`). Lookups are stated for any table; the facts
    about the shipped table are lemmas at the end. */
module Sites {
  import opened Wrappers

  datatype SiteConfig = SiteConfig(
    id: string,
    name: string,
    region: string,
    flag: string,
    gatewayUrl: string,
    isDefault: bool)

  /** The gateway placeholder of a site that is not online yet. */
  const ComingSoonGateway: string := "#"

  const SITES: seq<SiteConfig> := [
    SiteConfig("cn-shenzhen", "深圳", "CN", "\U{1F1E8}\U{1F1F3}", "http://192.168.1.222:8082", true),
    SiteConfig("cn-hongkong", "香港", "CN-HK", "\U{1F1ED}\U{1F1F0}", ComingSoonGateway, false),
    SiteConfig("uk-london", "伦敦", "UK", "\U{1F1EC}\U{1F1E7}", ComingSoonGateway, false),
    SiteConfig("us-sanfrancisco", "旧金山", "US", "\U{1F1FA}\U{1F1F8}", ComingSoonGateway, false),
    SiteConfig("sg-singapore", "新加坡", "SG", "\U{1F1F8}\U{1F1EC}", ComingSoonGateway, false)
  ]

  /** Index of the first site flagged as default (`sites.find(site => site.isDefault)`). */
  function FirstDefaultIndex(sites: seq<SiteConfig>): (r: Option<nat>)
    ensures r.Some? ==> r.value < |sites| && sites[r.value].isDefault
    ensures r.Some? ==> forall j :: 0 <= j < r.value ==> !sites[j].isDefault
    ensures r.None? ==> forall j :: 0 <= j < |sites| ==> !sites[j].isDefault
    decreases |sites|
  {
    if |sites| == 0 then None
    else if sites[0].isDefault then Some(0)
    else match FirstDefaultIndex(sites[1..])
      case None => None
      case Some(i) => Some(i + 1)
  }

  /** Index of the first site with the given id (`sites.find(site => site.id === id)`). */
  function FirstIndexOfId(sites: seq<SiteConfig>, id: string): (r: Option<nat>)
    ensures r.Some? ==> r.value < |sites| && sites[r.value].id == id
    ensures r.Some? ==> forall j :: 0 <= j < r.value ==> sites[j].id != id
    ensures r.None? ==> forall j :: 0 <= j < |sites| ==> sites[j].id != id
    decreases |sites|
  {
    if |sites| == 0 then None
    else if sites[0].id == id then Some(0)
    else match FirstIndexOfId(sites[1..], id)
      case None => None
      case Some(i) => Some(i + 1)
  }

  /** `getDefaultSite` over a table: the first default site, else the first site. */
  function DefaultIn(sites: seq<SiteConfig>): (r: SiteConfig)
    requires |sites| > 0
    ensures r in sites
    ensures (exists j :: 0 <= j < |sites| && sites[j].isDefault) ==> r.isDefault
    ensures (forall j :: 0 <= j < |sites| ==> !sites[j].isDefault) ==> r == sites[0]
  {
    match FirstDefaultIndex(sites)
    case Some(i) => sites[i]
    case None => sites[0]
  }

  /** `getSiteById` over a table: the first site with that id, else the default. */
  function SiteByIdIn(sites: seq<SiteConfig>, id: string): (r: SiteConfig)
    requires |sites| > 0
    ensures r in sites
    ensures (exists j :: 0 <= j < |sites| && sites[j].id == id) ==> r.id == id
    ensures (forall j :: 0 <= j < |sites| ==> sites[j].id != id) ==> r == DefaultIn(sites)
  {
    match FirstIndexOfId(sites, id)
    case Some(i) => sites[i]
    case None => DefaultIn(sites)
  }

  function DefaultSite(): SiteConfig {
    DefaultIn(SITES)
  }

  function SiteById(id: string): SiteConfig {
    SiteByIdIn(SITES, id)
  }

  /** The shipped table: ids are distinct, exactly one site (the first) is the
      default, and only the default has a real gateway. */
  lemma TableInvariants()
    ensures forall i, j :: 0 <= i < j < |SITES| ==> SITES[i].id != SITES[j].id
    ensures forall i :: 0 <= i < |SITES| ==> (SITES[i].isDefault <==> i == 0)
    ensures forall i :: 0 <= i < |SITES| ==> (SITES[i].gatewayUrl != ComingSoonGateway <==> SITES[i].isDefault)
  {
  }

  /** The default site is Shenzhen, the first entry. */
  lemma DefaultIsShenzhen()
    ensures DefaultSite() == SITES[0]
    ensures DefaultSite().id == "cn-shenzhen"
    ensures DefaultSite().gatewayUrl == "http://192.168.1.222:8082"
  {
    assert SITES[0].isDefault;
  }

  /** Every id of the table looks up its own site; any other id falls back to Shenzhen. */
  lemma SiteByIdTotal(id: string)
    ensures (exists j :: 0 <= j < |SITES| && SITES[j].id == id) ==> SiteById(id).id == id
    ensures (forall j :: 0 <= j < |SITES| ==> SITES[j].id != id) ==> SiteById(id).id == "cn-shenzhen"
    ensures SiteById(id) in SITES
  {
    DefaultIsShenzhen();
  }
}
