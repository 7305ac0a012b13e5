# aws-services.info report tools, modelled in Dafny

The `awsrands` MCP server has six tools. Each one fetches a page of
aws-services.info and turns it into a plain-text table for a language model:

- `aws_services` reads the service list;
- `aws_regions_for_service` reads the regions one service runs in;
- `aws_regions` reads the region list;
- `aws_services_in_region` reads the services of one region;
- `aws_localzones` reads the local zones;
- `aws_latest_services` reads the services released in the last 30 days.

All six run the same steps:

1. Scan the `p` elements for a bold "Updated on:" and keep the stripped text
   right after it.
2. On the two per-item pages, read the green-font subject name.
3. Take the rows of the `table table-striped` table, skipping the header row.
   Each data row's cells become fields. Some fields are a stripped text. Some
   are a stripped text with "NA" for an empty cell. Some are the site URL
   extended by the first anchor's href.
4. Write the annotation lines, a blank line, the header line and a 50-character
   rule. Then write one line per row, with the fields separated by two tabs.

The model has one parameterised routine. An `Adapter` value holds what differs
between tools: the columns, the header labels, the rule character and the
subject sentence. There are six such values.

Modules:

- `Html`: the parsed page, given as values.
- `Text`: Python's `str.strip`, repetition, and joining and splitting of
  fields and lines.
- `Extract`: the "Updated on:" scan and the row-to-fields mapping. Each is a
  specification function plus the loop that the source runs.
- `Report`: the report text, the methods that build it, and what a report
  looks like.
- `Adapters`: the six configurations, the six tools, and the row layout of
  each tool.

### Details of the tools' output

- Only the product-link field of a listing becomes "NA" when its cell strips to
  nothing (`main.py:52`, `main.py:105`, `main.py:207`). Every other field keeps
  the empty string.
- Consecutive fields on a line are separated by `"\t\t"` (`main.py:57-60` and
  the matching lines of each tool).
- The services header's third label is `" Product Link"`, with a leading space
  (`main.py:57`).
- In `aws_regions_for_service`, the second header label reads "AWS Service
  Name", but the field under it is the region name (`main.py:103`,
  `main.py:109`). The model keeps that label as written.

The source never returns partial output. When the page has no striped table,
`table.find_all` raises an `AttributeError`. When a data row has fewer cells
than the tool reads, `cols[k]` raises an `IndexError`. The model gives these
two outcomes as `Err(MissingTable)` and `Err(ShortRow(k))`, where `k` is the
row's index in the table.

## Model

| member | source | states |
|---|---|---|
| `Text.StripParts` | main.py:46 | `str.strip` removes only whitespace, from both ends. What remains is the middle of the input, neither starting nor ending in whitespace. |
| `Text.StripEmpty` | main.py:52 | A text strips to the empty string exactly when it is all whitespace, so the `if ... else 'NA'` test picks "NA" for blank cells. |
| `Text.StripPadded` | main.py:46 | Whitespace added around a text that does not begin or end in whitespace is removed exactly. |
| `Text.StripIdempotent` | main.py:35 | Stripping twice is stripping once. |
| `Text.TrimLeftMeaning` | main.py:46 | The left trim drops a whitespace prefix and stops at the first non-space character. |
| `Text.TrimRightMeaning` | main.py:46 | The right trim drops a whitespace suffix and stops at the last non-space character. |
| `Text.Repeat` | main.py:58 | `"-" * 50` is 50 copies of the character. |
| `Text.SplitJoinFields` | main.py:60 | A row line splits back into exactly its fields when no field holds a tab. |
| `Text.SplitLinesOfLines` | main.py:56-60 | Newline-terminated lines split back into exactly those lines when none holds a newline. |
| `Extract.UpdatedOnFirstMatch` | main.py:30-38 | The annotation comes from the first paragraph whose stripped bold text is "Updated on:" and whose next node is non-empty. A marker with an empty or missing next node does not stop the scan. There is no annotation exactly when no paragraph qualifies. |
| `Extract.FindUpdatedOn` | main.py:30-38 | The loop that breaks at the first qualifying paragraph computes the annotation. |
| `Extract.LinkUrl` | main.py:48-51 | The detail URL always starts with the site base. It is the bare base exactly when the cell has no anchor or an empty href. Otherwise the href follows the base. |
| `Extract.NAIfEmpty` | main.py:52 | A product-link field is never empty. An empty stripped text becomes "NA", and a non-empty one is kept unchanged. |
| `Extract.FieldMeaning` | main.py:45-53 | Plain fields are the stripped cell text, even when empty. "NA" fields are never empty, and read "NA" exactly when the cell strips to nothing or to "NA". Link fields are the base, extended by the href when there is a usable one. |
| `Extract.ExtractRowAt` | main.py:45-54 | Field `i` of a row comes from column `i` of the configuration, so the appended list keeps the source's field order. |
| `Extract.ExtractTableMeaning` | main.py:40-54 | Extraction succeeds exactly when every row after the header has the cells read. It then gives one field list per data row, in table order. Otherwise it fails at the first short data row. |
| `Extract.HeaderIgnored` | main.py:44 | The header row (`rows[1:]`) has no effect on the result. |
| `Extract.ExtractRows` | main.py:43-54 | The row loop computes the table extraction, including failure at the first short row. |
| `Report.WritePreamble` | main.py:78-95 | The output starts with the updated-on line when there is one, then the subject line when the tool has one and the page has a green-font element. |
| `Report.WriteTable` | main.py:56-60 | The formatting loop writes a blank line, the header line and the rule, then one terminated line per row, in order. |
| `Report.RunAdapter` | main.py:27-62 | One tool end to end computes the report text. It fails with no output when the table is missing or a row is short. |
| `Report.ReportShape` | main.py:56-62 | Cut at its newlines, a successful report is the annotation lines, an empty line, the header line, the rule, then exactly one line per data row. It ends with a newline. |
| `Report.RowLineFields` | main.py:60 | Each row line of a report splits back into that row's fields, one per column, when no field holds a tab. |
| `Report.ReportOutcome` | main.py:40-62 | A report fails with MissingTable exactly when the page has no striped table. It succeeds exactly when every data row has the cells read. On failure the error names the first short data row. On success there is one extracted row per data row. |
| `Adapters.AwsServices` | main.py:14-62 | The services tool computes the services-listing report over the site base. |
| `Adapters.AwsRegionsForService` | main.py:64-114 | The regions-for-service tool computes its report, with the green-font service subject line. |
| `Adapters.AwsRegions` | main.py:116-165 | The regions tool computes the regions-listing report over the site base. |
| `Adapters.AwsServicesInRegion` | main.py:167-216 | The services-in-region tool computes its report, with the green-font region subject line. |
| `Adapters.AwsLocalZones` | main.py:218-262 | The local-zones tool computes its report. |
| `Adapters.AwsLatestServices` | main.py:264-307 | The latest-services tool computes its report, ruled with '+'. |
| `Adapters.ServicesFits` | main.py:45-53 | A services row is read without error exactly when it has at least three cells. |
| `Adapters.ServicesRow` | main.py:45-54 | A services row gives [name, regions URL from the first cell's anchor, product link or "NA", number of regions]. |
| `Adapters.RegionsForServiceFits` | main.py:101-105 | A regions-for-service row needs at least four cells. |
| `Adapters.RegionsForServiceRow` | main.py:101-106 | A regions-for-service row keeps its four cells in order. Only the fourth, the product link, becomes "NA". |
| `Adapters.RegionsFits` | main.py:147-156 | A regions row needs at least four cells. |
| `Adapters.RegionsRow` | main.py:147-157 | A regions row gives five fields. The region's services URL, built from the first cell, is third. |
| `Adapters.ServicesInRegionFits` | main.py:204-207 | A services-in-region row needs at least three cells. |
| `Adapters.ServicesInRegionRow` | main.py:204-208 | A services-in-region row keeps its three cells in order. Only the third, the product link, becomes "NA". |
| `Adapters.LocalZonesFits` | main.py:249-253 | A local-zone row needs at least four cells. |
| `Adapters.LocalZonesRow` | main.py:249-254 | A local-zone row is its four stripped cell texts. |
| `Adapters.LatestServicesFits` | main.py:295-298 | A latest-services row needs at least three cells. |
| `Adapters.LatestServicesRow` | main.py:295-299 | A latest-services row is its three stripped cell texts. |
| `Adapters.NAOnlyInProductLinks` | main.py:100-106 | "NA" replaces an empty value only in the product-link field of the services, regions-for-service and services-in-region listings, and nowhere else. |
| `Adapters.ServicesBanner` | main.py:57-58 | The services configuration's header line is "Service Name", "Service in Regions URL", " Product Link" and "No. of Regions" joined by "\t\t". Its rule is '-', and it has no subject line. |
| `Adapters.RegionsForServiceBanner` | main.py:90-110 | The regions-for-service configuration's header line is its four labels joined by "\t\t", and its rule is '-'. When the page has a green-font element, the subject line is "AWS service: '", then the stripped green text, then "' is currently available in following AWS Regions:". Otherwise there is no subject line. |
| `Adapters.RegionsBanner` | main.py:160-161 | The regions configuration's header line is its five labels joined by "\t\t". Its rule is '-', and it has no subject line. |
| `Adapters.ServicesInRegionBanner` | main.py:193-212 | The services-in-region configuration's header line is its three labels joined by "\t\t", and its rule is '-'. When the page has a green-font element, the subject line is "AWS region: '", then the stripped green text, then "' currently has following AWS Services available:". Otherwise there is no subject line. |
| `Adapters.LocalZonesBanner` | main.py:257-258 | The local-zones configuration's header line is its four labels joined by "\t\t". Its rule is '-', and it has no subject line. |
| `Adapters.LatestServicesBanner` | main.py:302-303 | The latest-services configuration's header line is its three labels joined by "\t\t". Its rule is '+', and it has no subject line. |
| `Report.Render` | main.py:27-62 | Defines a tool's result: no output when the table is missing or a data row is short, and otherwise the annotation lines, blank line, header, rule and row lines, each terminated by a newline. `Report.ReportOutcome` and `Report.ReportShape` state its properties. |
| `Report.SubjectLines` | main.py:90-95 | Defines the subject line: the adapter's sentence around the stripped green-font text, present only when both exist. The `*Banner` lemmas state it for each tool. |
| `Extract.UpdatedOn` | main.py:30-38 | Defines the annotation as the stripped sibling text of the first qualifying paragraph. `Extract.UpdatedOnFirstMatch` characterises it. |
| `Extract.ExtractRow` | main.py:45-54 | One field per column of the configuration. `Extract.ExtractRowAt` and `Extract.FieldMeaning` give each field. |
| `Extract.ExtractTable` | main.py:40-54 | Defines the data-row extraction after the header row. `Extract.ExtractTableMeaning` characterises it. |
| `Text.Strip` | main.py:46 | Python's `str.strip()` over the exact `str.isspace` character set. `Text.StripParts` and `Text.StripPadded` characterise it. |
| `Text.JoinFields` | main.py:60 | Defines fields separated by "\t\t". `Text.SplitJoinFields` shows the fields are recoverable. |

## Left out

- The HTTP requests (`httpx`), the User-Agent header, and `raise_for_status`. Each tool receives the already parsed page instead.
- The HTML parser. A page is given as the results of the lookups the tools make: paragraphs, the green-font text, and the striped table's rows of cells.
- A next sibling of the bold element that is itself an element rather than text. The source then fails at `.strip()`, because the parser resolves the missing attribute to a child lookup that returns `None`, and calling that raises. The model treats every sibling as text and writes an annotation line instead of failing.
- MCP registration, the `mcp.tool()` decorators, async execution, and the process entry point. They do not affect the text a tool returns.
- The resource `region_and_services` and the prompts `default_prompt` and `debug_error` (main.py:321-348). They only return constant or templated text and hold no logic.
- The debug tool and the local-testing block, which sit in string literals and never run (main.py:309-319, main.py:350-366).
- The URL arguments of `aws_regions_for_service` and `aws_services_in_region`. They only choose which page is fetched.
- Character encoding of the page. Strings are sequences of Unicode characters.
- `Text.SplitLines` splits only at '\n'. It states the line structure of a report, not Python's `str.splitlines`.
