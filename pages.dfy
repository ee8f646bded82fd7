/** Demo pages of server.go: the file-name rule of `loadPage` and the placeholder substitution that
    `standaloneDemoPageHandler` applies to a loaded page. The file system is a parameter, a map from
    file names to their contents. */
module Pages {
  import opened Results
  import opened Strings
  import opened Http
  import opened Resolver

  /** `json_delay_ms`: the generator's simulated delay, which the demo pages display. */
  const JsonDelayMs: int := 1000

  /** A loaded page: the title it was asked for and the text of its file. */
  datatype Page = Page(title: string, body: string)

  /** Why `loadPage` failed: the file it tried to read is not there. */
  datatype LoadError = FileNotFound(filename: string)

  /** The file `loadPage` reads for `title`: the title itself when it has a '.', else title + ".txt". */
  function PageFileName(title: string): (filename: string)
    ensures HasPrefix(filename, title)
    ensures '.' in filename
    ensures '.' in title ==> filename == title
    ensures '.' !in title ==> filename == title + ".txt"
  {
    var filename := if '.' in title then title else title + ".txt";
    assert filename[..|title|] == title;
    assert '.' !in title ==> filename[|title|] == '.';
    filename
  }

  /** `loadPage`: reads the file of `title`; the page keeps the title it was asked for, not the file name. */
  function LoadPage(title: string, files: map<string, string>): (r: Result<Page, LoadError>)
    ensures r.Ok? <==> PageFileName(title) in files
    ensures r.Ok? ==> r.value.title == title && r.value.body == files[PageFileName(title)]
    ensures r.Err? ==> r.error == FileNotFound(PageFileName(title))
  {
    var filename := PageFileName(title);
    if filename in files then Ok(Page(title, files[filename])) else Err(FileNotFound(filename))
  }

  /** The title the demo handler asks for: the request URI without its first character, plus ".html".
      Since that title always has a '.', `loadPage` never appends ".txt" to it. */
  function DemoTitle(requestURI: string): (title: string)
    requires |requestURI| > 0
    ensures requestURI[1..] + ".html" == title
    ensures PageFileName(title) == title
  {
    var title := requestURI[1..] + ".html";
    assert title[|title| - 5] == '.';
    title
  }

  /** The placeholders of a demo page, in the order they are replaced. */
  const Placeholders: seq<string> :=
    ["$transport$", "$port$", "$protocol$", "$hostname$", "$scheme$", "$data_delay$"]

  /** The value that replaces each placeholder, position by position. */
  function DemoValues(request: Request): (values: seq<string>)
    ensures |values| == |Placeholders|
    ensures values[0] == ResolveProtocol(request).transport
    ensures values[1] == ResolveProtocol(request).port
    ensures values[2] == ResolveProtocol(request).protocol
    ensures values[3] == request.host
    ensures values[4] == Scheme(request)
    ensures values[5] == "1000"
  {
    var resolved := ResolveProtocol(request);
    DelayText();
    [resolved.transport, resolved.port, resolved.protocol, request.host, Scheme(request), Itoa(JsonDelayMs)]
  }

  /** `strconv.Itoa(json_delay_ms)` is "1000". */
  lemma DelayText()
    ensures Itoa(JsonDelayMs) == "1000"
  {
    assert DecimalDigits(1) == "1";
    assert DecimalDigits(10) == "10";
    assert DecimalDigits(100) == "100";
  }

  /** The page holds none of the first `k` placeholders. */
  predicate LacksPlaceholders(page: string, k: nat)
    requires k <= |Placeholders|
  {
    forall j :: 0 <= j < k ==> !Contains(page, Placeholders[j])
  }

  /** The page after the first `k` replacements of the handler, each of which replaces every
      occurrence of one placeholder, in the fixed order of `Placeholders`. A page without the first
      `k` placeholders goes through those `k` steps unchanged. */
  function DemoStep(page: string, request: Request, k: nat): (r: string)
    requires k <= |Placeholders|
    ensures LacksPlaceholders(page, k) ==> r == page
  {
    if k == 0 then page
    else
      var previous := DemoStep(page, request, k - 1);
      var next := ReplaceAll(previous, Placeholders[k - 1], DemoValues(request)[k - 1]);
      assert LacksPlaceholders(page, k) ==> next == page by {
        if LacksPlaceholders(page, k) {
          assert LacksPlaceholders(page, k - 1);
          ReplaceAbsent(page, Placeholders[k - 1], DemoValues(request)[k - 1]);
        }
      }
      next
  }

  /** Each value of "$transport$" is safe for it. */
  lemma TransportValueSafe(transport: string)
    requires transport == "tcp" || transport == "udp"
    ensures SafeReplacement("$transport$", transport)
  {
    assert "$transport$"[1..10] == "transport";
    AbsentByCharacter("transport", transport, if transport == "tcp" then 'c' else 'u');
  }

  /** Each label of the table is safe for "$protocol$"; the empty label is not. */
  lemma ProtocolValueSafe(protocol: string)
    requires protocol in Protocols.Values
    ensures SafeReplacement("$protocol$", protocol)
  {
    assert "$protocol$"[1..9] == "protocol";
    AbsentByCharacter("protocol", protocol, if protocol == "QUIC" then 'Q' else 'h');
  }

  /** Both schemes are safe for "$scheme$". */
  lemma SchemeValueSafe(scheme: string)
    requires scheme == "http" || scheme == "https"
    ensures SafeReplacement("$scheme$", scheme)
  {
    assert "$scheme$"[1..7] == "scheme";
    AbsentByCharacter("scheme", scheme, 't');
  }

  /** "1000" is safe for "$data_delay$" and has no character of "$scheme$". */
  lemma DelayValueSafe()
    ensures SafeReplacement("$data_delay$", "1000")
    ensures forall k :: 0 <= k < |"1000"| ==> "1000"[k] !in "$scheme$"
  {
    assert "$data_delay$"[1..11] == "data_delay";
    AbsentByCharacter("data_delay", "1000", '1');
  }

  /** Which placeholders are gone from the page, and after which step. Each step whose value cannot
      recreate its placeholder removes it: "$transport$" (value "tcp" or "udp"), "$protocol$" when
      the port has a label, "$scheme$" ("http" or "https"), and "$data_delay$" ("1000"); the last
      step cannot bring "$scheme$" back. The port, the hostname and the empty label carry no such
      guarantee, as they come from the request. */
  lemma DemoPlaceholdersRemoved(page: string, request: Request)
    ensures !Contains(DemoStep(page, request, 1), "$transport$")
    ensures ResolveProtocol(request).protocol != "" ==> !Contains(DemoStep(page, request, 3), "$protocol$")
    ensures !Contains(DemoStep(page, request, 5), "$scheme$")
    ensures !Contains(DemoStep(page, request, 6), "$scheme$")
    ensures !Contains(DemoStep(page, request, 6), "$data_delay$")
  {
    var values := DemoValues(request);
    TransportValueSafe(values[0]);
    ReplaceRemovesAll(DemoStep(page, request, 0), Placeholders[0], values[0]);
    if values[2] != "" {
      ProtocolValueSafe(values[2]);
      ReplaceRemovesAll(DemoStep(page, request, 2), Placeholders[2], values[2]);
    }
    SchemeValueSafe(values[4]);
    ReplaceRemovesAll(DemoStep(page, request, 4), Placeholders[4], values[4]);
    DelayValueSafe();
    ReplaceKeepsAbsent(DemoStep(page, request, 5), Placeholders[5], values[5], Placeholders[4]);
    ReplaceRemovesAll(DemoStep(page, request, 5), Placeholders[5], values[5]);
  }

  /** The body the demo handler writes for a loaded page: the page after all six steps. */
  function RenderDemoPage(page: string, request: Request): (r: string)
    ensures !Contains(r, "$scheme$") && !Contains(r, "$data_delay$")
    ensures LacksPlaceholders(page, |Placeholders|) ==> r == page
  {
    DemoPlaceholdersRemoved(page, request);
    DemoStep(page, request, |Placeholders|)
  }

  /** None of the first five placeholders occurs in "$data_delay$". */
  lemma DelayPageLacksOthers(page: string)
    requires page == "$data_delay$"
    ensures LacksPlaceholders(page, 5)
  {
    AbsentByCharacter(page, Placeholders[0], 'r');
    AbsentByCharacter(page, Placeholders[1], 'p');
    AbsentByCharacter(page, Placeholders[2], 'p');
    AbsentByCharacter(page, Placeholders[3], 'h');
    AbsentByCharacter(page, Placeholders[4], 's');
  }

  /** "$data_delay$" alone on a page is rendered as "1000". */
  lemma DelayPlaceholderShown(page: string, request: Request)
    requires page == "$data_delay$"
    ensures RenderDemoPage(page, request) == "1000"
  {
    DelayPageLacksOthers(page);
    assert DemoStep(page, request, 5) == page;
    ReplaceWhole(page, DemoValues(request)[5]);
    assert DemoStep(page, request, 6) == "1000";
  }

  /** None of the first three placeholders occurs in "$hostname$", so the fourth step puts the Host
      in its place. */
  lemma HostnamePageShowsHost(page: string, request: Request)
    requires page == "$hostname$"
    ensures DemoStep(page, request, 4) == request.host
  {
    AbsentByCharacter(page, Placeholders[0], 'r');
    AbsentByCharacter(page, Placeholders[1], 'p');
    AbsentByCharacter(page, Placeholders[2], 'p');
    assert LacksPlaceholders(page, 3);
    assert DemoStep(page, request, 3) == page;
    ReplaceWhole(page, DemoValues(request)[3]);
  }

  /** A page that reads `c` + "$scheme$" after four steps, `c` not being '$', reads `c` followed by
      the scheme after the fifth. */
  lemma SchemeStepAfterCharacter(page: string, request: Request, c: char)
    requires c != '$'
    requires DemoStep(page, request, 4) == [c] + Placeholders[4]
    ensures DemoStep(page, request, 5) == [c] + Scheme(request)
  {
    ReplaceAfterCharacter(c, Placeholders[4], DemoValues(request)[4]);
  }

  /** The replacements run one after the other, so placeholder text carried in by an earlier value
      is replaced by a later step: a Host "a$scheme$" is shown as "ahttp" on a plain request. */
  lemma HostTextIsSubstitutedLater(page: string, request: Request)
    requires page == "$hostname$"
    requires request.host == "a$scheme$" && !request.tls
    ensures RenderDemoPage(page, request) == "ahttp"
  {
    HostnamePageShowsHost(page, request);
    assert request.host == ['a'] + Placeholders[4];
    SchemeStepAfterCharacter(page, request, 'a');
    var fifth := DemoStep(page, request, 5);
    assert fifth == "ahttp";
    AbsentByCharacter(fifth, Placeholders[5], '$');
    ReplaceAbsent(fifth, Placeholders[5], DemoValues(request)[5]);
  }
}
