/**
 * The URL a table's QR code points to, as the table management screen
 * builds it: the app's own address in local mode, and in hosted mode either
 * a custom hosted address (trimmed, with the table appended unless it already
 * names one) or the default hosted address.
 */
module TableQr {
  import opened Text

  const LocalBaseUrl := "http://localhost:3000"
  const HostedBaseUrl := "https://smartdine-demo.vercel.app"
  const TableQuery := "?table="

  /** `process.env.NEXT_PUBLIC_APP_URL || 'http://localhost:3000'`, an unset variable being the empty string. */
  function BaseUrl(appUrl: string): (r: string)
    ensures appUrl != "" ==> r == appUrl
    ensures appUrl == "" ==> r == LocalBaseUrl
  {
    if appUrl != "" then appUrl else LocalBaseUrl
  }

  /** `getQrCodeUrl(tableNumber)` under the screen's hosted switch and custom hosted URL. */
  function GetQrCodeUrl(appUrl: string, isHosted: bool, customHostedUrl: string, tableNumber: string): (r: string)
    ensures !isHosted ==> r == BaseUrl(appUrl) + TableQuery + tableNumber
    ensures isHosted && IsBlank(customHostedUrl) ==> r == HostedBaseUrl + TableQuery + tableNumber
    ensures isHosted && !IsBlank(customHostedUrl) ==>
      var url := Trim(customHostedUrl);
      r == if Contains(url, TableQuery) then url
           else if Contains(url, "?") then url + "&table=" + tableNumber
           else url + TableQuery + tableNumber
  {
    TrimEmptyIffBlank(customHostedUrl);
    var localUrl := BaseUrl(appUrl) + TableQuery + tableNumber;
    if isHosted then
      if Trim(customHostedUrl) != "" then
        var url := Trim(customHostedUrl);
        if Contains(url, TableQuery) then url
        else if Contains(url, "?") then url + "&table=" + tableNumber
        else url + TableQuery + tableNumber
      else HostedBaseUrl + TableQuery + tableNumber
    else localUrl
  }

  /** `"?table="` inside a string means `"table="` is there too. */
  lemma TableQueryHasTable(s: string)
    requires Contains(s, TableQuery)
    ensures Contains(s, "table=")
  {
    var i := IndexOf(s, TableQuery).value;
    assert s[i + 1..i + 7] == s[i..i + 7][1..];
    ContainsAt(s, "table=", i + 1);
  }

  lemma EndsWithTable(prefix: string, sep: string, tableNumber: string)
    requires sep == TableQuery || sep == "&table="
    ensures Contains(prefix + sep + tableNumber, "table=")
  {
    var s := prefix + sep + tableNumber;
    assert s[|prefix| + 1..|prefix| + 7] == "table=";
    ContainsAt(s, "table=", |prefix| + 1);
  }

  /** Every URL the screen encodes names a table. */
  lemma QrUrlNamesTable(appUrl: string, isHosted: bool, customHostedUrl: string, tableNumber: string)
    ensures Contains(GetQrCodeUrl(appUrl, isHosted, customHostedUrl, tableNumber), "table=")
  {
    var url := Trim(customHostedUrl);
    if !isHosted {
      EndsWithTable(BaseUrl(appUrl), TableQuery, tableNumber);
    } else if IsBlank(customHostedUrl) {
      EndsWithTable(HostedBaseUrl, TableQuery, tableNumber);
    } else if Contains(url, TableQuery) {
      TableQueryHasTable(url);
    } else if Contains(url, "?") {
      EndsWithTable(url, "&table=", tableNumber);
    } else {
      EndsWithTable(url, TableQuery, tableNumber);
    }
  }

  /** Only the trimmed custom URL matters: surrounding white space never reaches the code. */
  lemma CustomUrlIsTrimmed(appUrl: string, isHosted: bool, customHostedUrl: string, tableNumber: string)
    ensures GetQrCodeUrl(appUrl, isHosted, customHostedUrl, tableNumber)
         == GetQrCodeUrl(appUrl, isHosted, Trim(customHostedUrl), tableNumber)
  {
    TrimIdempotent(customHostedUrl);
    TrimEmptyIffBlank(customHostedUrl);
    TrimEmptyIffBlank(Trim(customHostedUrl));
  }

  /** A custom URL that already names a table is used as it is, for every table. */
  lemma CustomTableWins(appUrl: string, customHostedUrl: string, t1: string, t2: string)
    requires Contains(Trim(customHostedUrl), TableQuery)
    ensures GetQrCodeUrl(appUrl, true, customHostedUrl, t1) == GetQrCodeUrl(appUrl, true, customHostedUrl, t2)
         == Trim(customHostedUrl)
  {
    TrimEmptyIffBlank(customHostedUrl);
    assert Trim(customHostedUrl) != [] by {
      var i := IndexOf(Trim(customHostedUrl), TableQuery).value;
      assert i + |TableQuery| <= |Trim(customHostedUrl)|;
    }
  }
}
