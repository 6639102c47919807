/**
 * The QR generator screen: the URL actually encoded (a local address is
 * rewritten to the hosted one in hosted mode), the blank-URL guard in front
 * of the generate request, and the list of the last five generated codes.
 */
module QrGenerator {
  import opened Wrappers
  import opened Text
  import TableQr

  const HostedBaseUrl := TableQr.HostedBaseUrl
  const TableQuery := TableQr.TableQuery

  /** The input names the local development server. */
  predicate LooksLocal(url: string)
  {
    Contains(url, "localhost:3000") || Contains(url, "127.0.0.1:3000")
  }

  /** `inputUrl.split('?table=')[1]` when the input has a table query, otherwise the empty string. */
  function TablePiece(url: string): (piece: string)
    ensures !Contains(piece, TableQuery)
  {
    if Contains(url, TableQuery) then SplitSecond(url, TableQuery)
    else
      MissingCharNotContains("", TableQuery, '?');
      ""
  }

  /**
   * `getFinalUrl`: blank input gives the empty string; in hosted mode a local
   * address becomes the hosted address, keeping the table named after its
   * first `?table=`; any other input is kept exactly, untrimmed.
   */
  function GetFinalUrl(isHosted: bool, inputUrl: string): (r: string)
    ensures IsBlank(inputUrl) ==> r == ""
    ensures !IsBlank(inputUrl) && !(isHosted && LooksLocal(inputUrl)) ==> r == inputUrl
    ensures !IsBlank(inputUrl) && isHosted && LooksLocal(inputUrl) ==>
      r == if TablePiece(inputUrl) != "" then HostedBaseUrl + TableQuery + TablePiece(inputUrl) else HostedBaseUrl
  {
    TrimEmptyIffBlank(inputUrl);
    if Trim(inputUrl) == "" then ""
    else if isHosted && LooksLocal(inputUrl) then
      var tableParam := TablePiece(inputUrl);
      if tableParam != "" then HostedBaseUrl + TableQuery + tableParam else HostedBaseUrl
    else inputUrl
  }

  /** Facts about the two fixed addresses that the rewriting relies on. */
  lemma FixedAddresses()
    ensures '?' !in HostedBaseUrl && '?' !in TableQr.LocalBaseUrl
    ensures !IsBlank(HostedBaseUrl) && !LooksLocal(HostedBaseUrl)
  {
    assert HostedBaseUrl[0] == 'h';
    HostedAddressNotLocal();
  }

  lemma HostedAddressNotLocal()
    ensures !LooksLocal(HostedBaseUrl)
  {
    assert '3' !in HostedBaseUrl;
    MissingCharNotContains(HostedBaseUrl, "localhost:3000", '3');
    MissingCharNotContains(HostedBaseUrl, "127.0.0.1:3000", '3');
  }

  /** Rewriting a URL that `getFinalUrl` has already produced changes nothing. */
  lemma GetFinalUrlIdempotent(isHosted: bool, inputUrl: string)
    ensures GetFinalUrl(isHosted, GetFinalUrl(isHosted, inputUrl)) == GetFinalUrl(isHosted, inputUrl)
  {
    FixedAddresses();
    if !IsBlank(inputUrl) && isHosted && LooksLocal(inputUrl) {
      var piece := TablePiece(inputUrl);
      if piece != "" {
        var r := HostedBaseUrl + TableQuery + piece;
        assert r[0] == 'h';
        SplitSecondAfterPrefix(HostedBaseUrl, TableQuery, piece);
        assert TablePiece(r) == piece;
      }
    }
  }

  /**
   * In hosted mode, the generator turns the table QR address of the local
   * app into the very address the table screen encodes in hosted mode
   * without a custom URL, for any table number that is not empty and holds
   * no `?table=` of its own.
   */
  lemma LocalTableUrlBecomesHosted(appUrl: string, customHostedUrl: string, tableNumber: string)
    requires tableNumber != "" && !Contains(tableNumber, TableQuery)
    ensures GetFinalUrl(true, TableQr.GetQrCodeUrl("", false, customHostedUrl, tableNumber))
         == TableQr.GetQrCodeUrl(appUrl, true, "", tableNumber)
  {
    var local := TableQr.LocalBaseUrl + TableQuery + tableNumber;
    assert TableQr.GetQrCodeUrl("", false, customHostedUrl, tableNumber) == local;
    LocalTableUrl(tableNumber);
    TrimEmptyIffBlank("");
  }

  /** The local table address is not blank, looks local, and names its table. */
  lemma LocalTableUrl(tableNumber: string)
    requires !Contains(tableNumber, TableQuery)
    ensures var local := TableQr.LocalBaseUrl + TableQuery + tableNumber;
      !IsBlank(local) && LooksLocal(local) && TablePiece(local) == tableNumber
  {
    var local := TableQr.LocalBaseUrl + TableQuery + tableNumber;
    assert local[0] == 'h';
    LocalAddressLooksLocal(TableQuery + tableNumber);
    assert local == TableQr.LocalBaseUrl + (TableQuery + tableNumber);
    FixedAddresses();
    SplitSecondAfterPrefix(TableQr.LocalBaseUrl, TableQuery, tableNumber);
  }

  lemma LocalAddressLooksLocal(rest: string)
    ensures LooksLocal(TableQr.LocalBaseUrl + rest)
  {
    var s := TableQr.LocalBaseUrl + rest;
    assert s[7..21] == TableQr.LocalBaseUrl[7..21];
    assert TableQr.LocalBaseUrl[7..21] == "localhost:3000";
    ContainsAt(s, "localhost:3000", 7);
  }

  // ---------------------------------------------------------------------
  // Generating and the history

  datatype QrData = QrData(qrCode: string, format: string, size: string, url: string, downloadUrl: string)

  /** The answer to `POST /api/qr/generate`: success with data, a refusal, or a request that threw. */
  datatype GenerateReply = Generated(data: QrData) | Refused(error: string) | Threw

  datatype ScreenState = ScreenState(qrData: Option<QrData>, history: seq<QrData>)

  function Min(a: int, b: int): int { if a <= b then a else b }

  /** `[entry, ...prev.slice(0, 4)]`: the newest entry first, then at most four older ones. */
  function PushHistory(history: seq<QrData>, entry: QrData): (r: seq<QrData>)
    ensures |r| == Min(|history| + 1, 5) && r[0] == entry
    ensures r[1..] == history[..|r| - 1]
  {
    [entry] + history[..Min(|history|, 4)]
  }

  /** The history after generating `entries` in order, starting from none. */
  function HistoryOf(entries: seq<QrData>): seq<QrData>
  {
    if entries == [] then [] else PushHistory(HistoryOf(entries[..|entries| - 1]), entries[|entries| - 1])
  }

  /** The entries of `s` in the opposite order. */
  function Reverse(s: seq<QrData>): (r: seq<QrData>)
    ensures |r| == |s|
  {
    seq(|s|, i requires 0 <= i < |s| => s[|s| - 1 - i])
  }

  /** The first `k` entries of a reversed sequence are its last `k`, reversed. */
  lemma ReversePrefix(s: seq<QrData>, k: nat)
    requires k <= |s|
    ensures Reverse(s)[..k] == Reverse(s[|s| - k..])
  {
    var t := s[|s| - k..];
    var a, b := Reverse(s)[..k], Reverse(t);
    forall i | 0 <= i < k ensures a[i] == b[i] {
      assert t[k - 1 - i] == s[|s| - 1 - i];
    }
  }

  /** Reversing a sequence with an entry appended puts that entry first. */
  lemma ReverseSnoc(s: seq<QrData>, x: QrData)
    ensures Reverse(s + [x]) == [x] + Reverse(s)
  {
    var a, b := Reverse(s + [x]), [x] + Reverse(s);
    forall i | 0 <= i < |s| + 1 ensures a[i] == b[i] {
      if i > 0 { assert (s + [x])[|s| - i] == s[|s| - 1 - (i - 1)]; }
    }
  }

  /** The last (at most) five entries of `entries`. */
  function LastFive(entries: seq<QrData>): (r: seq<QrData>)
    ensures |r| == Min(|entries|, 5)
  {
    entries[|entries| - Min(|entries|, 5)..]
  }

  /** Pushing onto the reversed last five of a list gives the reversed last five of the longer list. */
  lemma PushLastFive(init: seq<QrData>, x: QrData)
    ensures PushHistory(Reverse(LastFive(init)), x) == Reverse(LastFive(init + [x]))
  {
    var last := LastFive(init);
    var k := Min(|last|, 4);
    var kept := init[|init| - k..];
    ReversePrefix(last, k);
    assert last[|last| - k..] == kept;
    ReverseSnoc(kept, x);
    assert LastFive(init + [x]) == kept + [x];
  }

  /** The history holds the last five generated codes (fewer if fewer were generated), newest first. */
  lemma {:induction false} HistoryKeepsLastFive(entries: seq<QrData>)
    ensures HistoryOf(entries) == Reverse(LastFive(entries))
  {
    if entries != [] {
      var init := entries[..|entries| - 1];
      HistoryKeepsLastFive(init);
      PushLastFive(init, entries[|entries| - 1]);
      assert init + [entries[|entries| - 1]] == entries;
    }
  }

  /** Rewriting never turns a non-blank URL into a blank one. */
  lemma FinalUrlNotBlank(isHosted: bool, url: string)
    requires !IsBlank(url)
    ensures !IsBlank(GetFinalUrl(isHosted, url))
  {
    if isHosted && LooksLocal(url) {
      var piece := TablePiece(url);
      var r := GetFinalUrl(isHosted, url);
      assert r[0] == 'h' by {
        if piece != "" {
          assert r == HostedBaseUrl + TableQuery + piece;
        } else {
          assert r == HostedBaseUrl;
        }
      }
    }
  }

  /** The URL sent to the generator: none for a blank input, else the final URL. */
  function GenerateRequest(url: string, isHosted: bool): (r: Option<string>)
    ensures r.None? <==> IsBlank(url)
    ensures r.Some? ==> r.value == GetFinalUrl(isHosted, url) && !IsBlank(r.value)
  {
    TrimEmptyIffBlank(url);
    if Trim(url) == "" then None
    else
      var finalUrl := GetFinalUrl(isHosted, url);
      FinalUrlNotBlank(isHosted, url);
      Some(finalUrl)
  }

  /**
   * `generateQRCode`: a blank URL makes no request and changes nothing; a
   * successful reply shows the code under the final URL and records it
   * first in the history; a refused or failed request changes nothing.
   */
  function GenerateQRCode(url: string, isHosted: bool, state: ScreenState, reply: GenerateReply)
    : (r: (Option<string>, ScreenState))
    ensures r.0 == GenerateRequest(url, isHosted)
    ensures r.0.None? || !reply.Generated? ==> r.1 == state
    ensures r.0.Some? && reply.Generated? ==>
      var shown := reply.data.(url := r.0.value);
      r.1.qrData == Some(shown) && r.1.history == PushHistory(state.history, shown)
      && |r.1.history| <= 5 && r.1.history[0].url == GetFinalUrl(isHosted, url)
  {
    match GenerateRequest(url, isHosted)
    case None => (None, state)
    case Some(finalUrl) =>
      match reply
      case Generated(data) =>
        var shown := data.(url := finalUrl);
        (Some(finalUrl), ScreenState(Some(shown), PushHistory(state.history, shown)))
      case _ => (Some(finalUrl), state)
  }
}
