/** The six report tools: each is the shared extraction and formatting
    routine under its own configuration (columns, header labels, rule
    character, subject sentence). Fetching the page is not part of the model;
    each tool receives the parsed page. */
module Adapters {
  import opened Text
  import opened Html
  import opened Extract
  import opened Report

  /** The site every listing page links into; the detail URLs of the
      services and regions listings are built on it. */
  const SiteBase: string := "https://www.aws-services.info/"

  /** services.html: name, the service's regions page, product link, number
      of regions. */
  const Services: Adapter := Adapter(
    [Plain(0), Link(0), OrNA(1), Plain(2)],
    ["Service Name", "Service in Regions URL", " Product Link", "No. of Regions"],
    '-', None)

  /** A service's page: the regions it runs in. */
  const RegionsForService: Adapter := Adapter(
    [Plain(0), Plain(1), Plain(2), OrNA(3)],
    ["AWS Region Code", "AWS Service Name", "Date Of Service Launched In Regions", "Service Product Link"],
    '-', Some(Subject("AWS service: '", "' is currently available in following AWS Regions:")))

  /** regions.html: the detail URL is the third field although it comes from
      the first cell. */
  const Regions: Adapter := Adapter(
    [Plain(0), Plain(1), Link(0), Plain(2), Plain(3)],
    ["Region Name", "Region Code", "Services In This Region URL", "No. of AWS Services in Region",
     "No. of AWS Availability Zones"],
    '-', None)

  /** A region's page: the services available in it. */
  const ServicesInRegion: Adapter := Adapter(
    [Plain(0), Plain(1), OrNA(2)],
    ["AWS Service Name", "Date Of Service Launched In Regions", "Service Product Link"],
    '-', Some(Subject("AWS region: '", "' currently has following AWS Services available:")))

  /** local_zones.html. */
  const LocalZones: Adapter := Adapter(
    [Plain(0), Plain(1), Plain(2), Plain(3)],
    ["AWS Local Zone Country(City)", "AWS Local Zone Code", "Local Zone's Parent AWS Region Name",
     "Parent AWS Region Code"],
    '-', None)

  /** whatsnew.html: the only listing ruled with '+'. */
  const LatestServices: Adapter := Adapter(
    [Plain(0), Plain(1), Plain(2)],
    ["AWS Service Released in Last 30 days", "Country(City)", "Service Launch Date"],
    '+', None)

  // ---------------------------------------------------------------------
  // The tools
  // ---------------------------------------------------------------------

  method AwsServices(page: Page) returns (r: Result<string>)
    ensures r == Render(Services, page, SiteBase)
  {
    r := RunAdapter(Services, page, SiteBase);
  }

  method AwsRegionsForService(page: Page) returns (r: Result<string>)
    ensures r == Render(RegionsForService, page, SiteBase)
  {
    r := RunAdapter(RegionsForService, page, SiteBase);
  }

  method AwsRegions(page: Page) returns (r: Result<string>)
    ensures r == Render(Regions, page, SiteBase)
  {
    r := RunAdapter(Regions, page, SiteBase);
  }

  method AwsServicesInRegion(page: Page) returns (r: Result<string>)
    ensures r == Render(ServicesInRegion, page, SiteBase)
  {
    r := RunAdapter(ServicesInRegion, page, SiteBase);
  }

  method AwsLocalZones(page: Page) returns (r: Result<string>)
    ensures r == Render(LocalZones, page, SiteBase)
  {
    r := RunAdapter(LocalZones, page, SiteBase);
  }

  method AwsLatestServices(page: Page) returns (r: Result<string>)
    ensures r == Render(LatestServices, page, SiteBase)
  {
    r := RunAdapter(LatestServices, page, SiteBase);
  }

  // ---------------------------------------------------------------------
  // What each configuration means
  // ---------------------------------------------------------------------

  /** Rows of three, four and five columns, written out field by field. */
  lemma RowOfThree(c0: Column, c1: Column, c2: Column, cells: Row, base: string)
    requires Fits([c0, c1, c2], cells)
    ensures c0.col < |cells| && c1.col < |cells| && c2.col < |cells|
    ensures ExtractRow([c0, c1, c2], cells, base) ==
      [FieldValue(c0, cells, base), FieldValue(c1, cells, base), FieldValue(c2, cells, base)]
  {
    var cs := [c0, c1, c2];
    assert cs[0] == c0 && cs[1] == c1 && cs[2] == c2;
    ExtractRowAt(cs, cells, base, 0);
    ExtractRowAt(cs, cells, base, 1);
    ExtractRowAt(cs, cells, base, 2);
  }

  lemma RowOfFour(c0: Column, c1: Column, c2: Column, c3: Column, cells: Row, base: string)
    requires Fits([c0, c1, c2, c3], cells)
    ensures c0.col < |cells| && c1.col < |cells| && c2.col < |cells| && c3.col < |cells|
    ensures ExtractRow([c0, c1, c2, c3], cells, base) ==
      [FieldValue(c0, cells, base), FieldValue(c1, cells, base), FieldValue(c2, cells, base),
       FieldValue(c3, cells, base)]
  {
    var cs := [c0, c1, c2, c3];
    assert cs[0] == c0 && cs[1] == c1 && cs[2] == c2 && cs[3] == c3;
    ExtractRowAt(cs, cells, base, 0);
    ExtractRowAt(cs, cells, base, 1);
    ExtractRowAt(cs, cells, base, 2);
    ExtractRowAt(cs, cells, base, 3);
  }

  lemma RowOfFive(c0: Column, c1: Column, c2: Column, c3: Column, c4: Column, cells: Row, base: string)
    requires Fits([c0, c1, c2, c3, c4], cells)
    ensures c0.col < |cells| && c1.col < |cells| && c2.col < |cells| && c3.col < |cells| && c4.col < |cells|
    ensures ExtractRow([c0, c1, c2, c3, c4], cells, base) ==
      [FieldValue(c0, cells, base), FieldValue(c1, cells, base), FieldValue(c2, cells, base),
       FieldValue(c3, cells, base), FieldValue(c4, cells, base)]
  {
    var cs := [c0, c1, c2, c3, c4];
    assert cs[0] == c0 && cs[1] == c1 && cs[2] == c2 && cs[3] == c3 && cs[4] == c4;
    ExtractRowAt(cs, cells, base, 0);
    ExtractRowAt(cs, cells, base, 1);
    ExtractRowAt(cs, cells, base, 2);
    ExtractRowAt(cs, cells, base, 3);
    ExtractRowAt(cs, cells, base, 4);
  }

  /** A services row needs three cells: a shorter one is the row the listing fails on. */
  lemma ServicesFits(cells: Row)
    ensures Fits(Services.columns, cells) <==> |cells| >= 3
  {
    assert Services.columns[3].col == 2;
  }

  /** A services row reads [name, the service's regions URL (built from the
      first cell's anchor), product link or "NA", number of regions]. */
  lemma ServicesRow(cells: Row)
    requires |cells| >= 3
    ensures ExtractRow(Services.columns, cells, SiteBase) ==
      [Strip(cells[0].text), LinkUrl(cells[0], SiteBase), NAIfEmpty(Strip(cells[1].text)), Strip(cells[2].text)]
  {
    ServicesFits(cells);
    RowOfFour(Plain(0), Link(0), OrNA(1), Plain(2), cells, SiteBase);
  }

  /** A regions-for-service row needs four cells: a shorter one is the row the listing fails on. */
  lemma RegionsForServiceFits(cells: Row)
    ensures Fits(RegionsForService.columns, cells) <==> |cells| >= 4
  {
    assert RegionsForService.columns[3].col == 3;
  }

  /** A regions-for-service row keeps its four cells in order; only the fourth
      field, the product link, becomes "NA". */
  lemma RegionsForServiceRow(cells: Row)
    requires |cells| >= 4
    ensures ExtractRow(RegionsForService.columns, cells, SiteBase) ==
      [Strip(cells[0].text), Strip(cells[1].text), Strip(cells[2].text), NAIfEmpty(Strip(cells[3].text))]
  {
    RegionsForServiceFits(cells);
    RowOfFour(Plain(0), Plain(1), Plain(2), OrNA(3), cells, SiteBase);
  }

  /** A regions row needs four cells: a shorter one is the row the listing fails on. */
  lemma RegionsFits(cells: Row)
    ensures Fits(Regions.columns, cells) <==> |cells| >= 4
  {
    assert Regions.columns[4].col == 3;
  }

  /** A regions row gives five fields, the region's services URL (from the
      first cell's anchor) in third place. */
  lemma RegionsRow(cells: Row)
    requires |cells| >= 4
    ensures ExtractRow(Regions.columns, cells, SiteBase) ==
      [Strip(cells[0].text), Strip(cells[1].text), LinkUrl(cells[0], SiteBase), Strip(cells[2].text),
       Strip(cells[3].text)]
  {
    RegionsFits(cells);
    RowOfFive(Plain(0), Plain(1), Link(0), Plain(2), Plain(3), cells, SiteBase);
  }

  /** A services-in-region row needs three cells: a shorter one is the row the listing fails on. */
  lemma ServicesInRegionFits(cells: Row)
    ensures Fits(ServicesInRegion.columns, cells) <==> |cells| >= 3
  {
    assert ServicesInRegion.columns[2].col == 2;
  }

  /** A services-in-region row keeps its three cells in order; only the third
      field, the product link, becomes "NA". */
  lemma ServicesInRegionRow(cells: Row)
    requires |cells| >= 3
    ensures ExtractRow(ServicesInRegion.columns, cells, SiteBase) ==
      [Strip(cells[0].text), Strip(cells[1].text), NAIfEmpty(Strip(cells[2].text))]
  {
    ServicesInRegionFits(cells);
    RowOfThree(Plain(0), Plain(1), OrNA(2), cells, SiteBase);
  }

  /** A local-zone row needs four cells: a shorter one is the row the listing fails on. */
  lemma LocalZonesFits(cells: Row)
    ensures Fits(LocalZones.columns, cells) <==> |cells| >= 4
  {
    assert LocalZones.columns[3].col == 3;
  }

  /** A local-zone row keeps each of its four cells as its stripped text. */
  lemma LocalZonesRow(cells: Row)
    requires |cells| >= 4
    ensures ExtractRow(LocalZones.columns, cells, SiteBase) ==
      [Strip(cells[0].text), Strip(cells[1].text), Strip(cells[2].text), Strip(cells[3].text)]
  {
    LocalZonesFits(cells);
    RowOfFour(Plain(0), Plain(1), Plain(2), Plain(3), cells, SiteBase);
  }

  /** A latest-services row needs three cells: a shorter one is the row the listing fails on. */
  lemma LatestServicesFits(cells: Row)
    ensures Fits(LatestServices.columns, cells) <==> |cells| >= 3
  {
    assert LatestServices.columns[2].col == 2;
  }

  /** A latest-services row keeps each of its three cells as its stripped text. */
  lemma LatestServicesRow(cells: Row)
    requires |cells| >= 3
    ensures ExtractRow(LatestServices.columns, cells, SiteBase) ==
      [Strip(cells[0].text), Strip(cells[1].text), Strip(cells[2].text)]
  {
    LatestServicesFits(cells);
    RowOfThree(Plain(0), Plain(1), Plain(2), cells, SiteBase);
  }

  /** The fields that substitute "NA" for an empty cell. */
  function NAFields(a: Adapter): set<nat>
  {
    set i: nat | i < |a.columns| && a.columns[i].OrNA?
  }

  /** Only the product-link field of the services, regions-for-service and
      services-in-region listings substitutes "NA"; no other field of any
      listing does. */
  lemma NAOnlyInProductLinks()
    ensures NAFields(Services) == {2}
    ensures NAFields(RegionsForService) == {3}
    ensures NAFields(ServicesInRegion) == {2}
    ensures NAFields(Regions) == {} && NAFields(LocalZones) == {} && NAFields(LatestServices) == {}
  {
    assert 2 in NAFields(Services);
    assert 3 in NAFields(RegionsForService);
    assert 2 in NAFields(ServicesInRegion);
  }

  // ---------------------------------------------------------------------
  // Header, rule and subject line of each tool
  // ---------------------------------------------------------------------

  lemma JoinThree(a: string, b: string, c: string)
    ensures JoinFields([a, b, c]) == a + FieldSep + b + FieldSep + c
  {
    assert [a, b, c][1..] == [b, c];
    assert [b, c][1..] == [c];
    assert JoinFields([b, c]) == b + FieldSep + c;
  }

  lemma JoinFour(a: string, b: string, c: string, d: string)
    ensures JoinFields([a, b, c, d]) == a + FieldSep + b + FieldSep + c + FieldSep + d
  {
    assert [a, b, c, d][1..] == [b, c, d];
    JoinThree(b, c, d);
  }

  lemma JoinFive(a: string, b: string, c: string, d: string, e: string)
    ensures JoinFields([a, b, c, d, e]) == a + FieldSep + b + FieldSep + c + FieldSep + d + FieldSep + e
  {
    assert [a, b, c, d, e][1..] == [b, c, d, e];
    JoinFour(b, c, d, e);
  }

  /** The services listing: its header labels, " Product Link" with a leading
      space, joined by "\t\t"; a '-' rule; no subject line. */
  lemma ServicesBanner(page: Page)
    ensures JoinFields(Services.header) ==
      "Service Name" + FieldSep + "Service in Regions URL" + FieldSep + " Product Link" + FieldSep + "No. of Regions"
    ensures Services.rule == '-'
    ensures SubjectLines(Services, page) == []
  {
    JoinFour("Service Name", "Service in Regions URL", " Product Link", "No. of Regions");
  }

  /** A service's regions: its header labels, the second of which heads the
      region name; a '-' rule; the sentence naming the green-font service. */
  lemma RegionsForServiceBanner(page: Page)
    ensures JoinFields(RegionsForService.header) ==
      "AWS Region Code" + FieldSep + "AWS Service Name" + FieldSep + "Date Of Service Launched In Regions" + FieldSep +
      "Service Product Link"
    ensures RegionsForService.rule == '-'
    ensures SubjectLines(RegionsForService, page) ==
      if page.greenFont.Some? then
        ["AWS service: '" + Strip(page.greenFont.value) + "' is currently available in following AWS Regions:"]
      else []
  {
    JoinFour("AWS Region Code", "AWS Service Name", "Date Of Service Launched In Regions", "Service Product Link");
  }

  /** The regions listing: its five header labels; a '-' rule; no subject
      line. */
  lemma RegionsBanner(page: Page)
    ensures JoinFields(Regions.header) ==
      "Region Name" + FieldSep + "Region Code" + FieldSep + "Services In This Region URL" + FieldSep +
      "No. of AWS Services in Region" + FieldSep + "No. of AWS Availability Zones"
    ensures Regions.rule == '-'
    ensures SubjectLines(Regions, page) == []
  {
    JoinFive("Region Name", "Region Code", "Services In This Region URL", "No. of AWS Services in Region",
      "No. of AWS Availability Zones");
  }

  /** A region's services: its header labels; a '-' rule; the sentence
      naming the green-font region. */
  lemma ServicesInRegionBanner(page: Page)
    ensures JoinFields(ServicesInRegion.header) ==
      "AWS Service Name" + FieldSep + "Date Of Service Launched In Regions" + FieldSep + "Service Product Link"
    ensures ServicesInRegion.rule == '-'
    ensures SubjectLines(ServicesInRegion, page) ==
      if page.greenFont.Some? then
        ["AWS region: '" + Strip(page.greenFont.value) + "' currently has following AWS Services available:"]
      else []
  {
    JoinThree("AWS Service Name", "Date Of Service Launched In Regions", "Service Product Link");
  }

  /** The local-zones listing: its header labels; a '-' rule; no subject
      line. */
  lemma LocalZonesBanner(page: Page)
    ensures JoinFields(LocalZones.header) ==
      "AWS Local Zone Country(City)" + FieldSep + "AWS Local Zone Code" + FieldSep +
      "Local Zone's Parent AWS Region Name" + FieldSep + "Parent AWS Region Code"
    ensures LocalZones.rule == '-'
    ensures SubjectLines(LocalZones, page) == []
  {
    JoinFour("AWS Local Zone Country(City)", "AWS Local Zone Code", "Local Zone's Parent AWS Region Name",
      "Parent AWS Region Code");
  }

  /** The latest-services listing: its header labels; a '+' rule; no subject
      line. */
  lemma LatestServicesBanner(page: Page)
    ensures JoinFields(LatestServices.header) ==
      "AWS Service Released in Last 30 days" + FieldSep + "Country(City)" + FieldSep + "Service Launch Date"
    ensures LatestServices.rule == '+'
    ensures SubjectLines(LatestServices, page) == []
  {
    JoinThree("AWS Service Released in Last 30 days", "Country(City)", "Service Launch Date");
  }
}
