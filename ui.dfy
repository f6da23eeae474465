/** The renderer's UI manager, reduced to the state its decisions touch: the
    items of the URL queue, the three control buttons and the URL counters. */
module Ui {

  /** One entry of the URL queue: the URL it stands for and its status word. */
  datatype QueueItem = QueueItem(url: string, status: string)

  /** `truncateUrl(url, maxLength)`: a URL longer than `maxLength` keeps its first
      `maxLength - 3` characters (none when that is negative) followed by `...`. */
  function TruncateUrl(url: string, maxLength: int): (r: string)
    ensures url == "" || |url| <= maxLength ==> r == url
    ensures url != "" && |url| > maxLength ==>
      |r| >= 3 && r[|r| - 3..] == "..." && |r| - 3 <= |url| && r[..|r| - 3] == url[..|r| - 3]
    ensures url != "" && |url| > maxLength && maxLength >= 3 ==> |r| == maxLength
    ensures url != "" && |url| > maxLength && maxLength < 3 ==> r == "..."
  {
    if url == "" || |url| <= maxLength then url
    else
      var keep := if maxLength - 3 < 0 then 0 else maxLength - 3;
      url[..keep] + "..."
  }

  /** The default width. */
  const DefaultWidth: int := 50

  /** A URL longer than the default width becomes exactly 50 characters, its first 47 kept. */
  lemma DefaultTruncation(url: string)
    requires |url| > DefaultWidth
    ensures |TruncateUrl(url, DefaultWidth)| == 50 && TruncateUrl(url, DefaultWidth) == url[..47] + "..."
  {
  }

  /** The entries whose URL is `url` take `status`; all others stay as they are. */
  function Restatus(items: seq<QueueItem>, url: string, status: string): (r: seq<QueueItem>)
    ensures |r| == |items|
    ensures forall k :: 0 <= k < |items| ==>
      r[k] == (if items[k].url == url then items[k].(status := status) else items[k])
  {
    seq(|items|, k requires 0 <= k < |items| => if items[k].url == url then items[k].(status := status) else items[k])
  }

  /** Only the last status written counts. */
  lemma RestatusTwice(items: seq<QueueItem>, url: string, s1: string, s2: string)
    ensures Restatus(Restatus(items, url, s1), url, s2) == Restatus(items, url, s2)
  {
  }

  /** `getQueuedUrls` of the UI manager: the non-empty item URLs, in list order. */
  function NonEmptyUrls(items: seq<QueueItem>): (r: seq<string>)
    ensures forall u :: u in r <==> u != "" && exists k :: 0 <= k < |items| && items[k].url == u
    ensures |r| <= |items|
  {
    if items == [] then []
    else
      var rest := NonEmptyUrls(items[1..]);
      assert forall k :: 1 <= k < |items| ==> items[1..][k - 1] == items[k];
      if items[0].url != "" then [items[0].url] + rest else rest
  }

  /** The queued URLs keep the list order: the k-th non-empty URL comes before the next. */
  lemma {:induction false} NonEmptyUrlsOrder(items: seq<QueueItem>, k: nat)
    requires k < |items| && items[k].url != ""
    ensures NonEmptyUrls(items) == NonEmptyUrls(items[..k]) + [items[k].url] + NonEmptyUrls(items[k + 1..])
  {
    if k > 0 {
      NonEmptyUrlsOrder(items[1..], k - 1);
      assert items[1..][..k - 1] == items[..k][1..];
      assert items[1..][k - 1] == items[k];
      assert items[1..][k..] == items[k + 1..];
    } else {
      assert items[..0] == [];
      assert items[1..] == items[k + 1..];
    }
  }

  /** The number of items whose status is `completed` or `error`. */
  function Settled(items: seq<QueueItem>): (n: nat)
    ensures n <= |items|
  {
    if items == [] then 0
    else (if items[0].status == "completed" || items[0].status == "error" then 1 else 0) + Settled(items[1..])
  }

  class UIManager {
    var items: seq<QueueItem>
    var startDisabled: bool
    var pauseDisabled: bool
    var pauseLabel: string
    var stopDisabled: bool
    var totalUrls: nat
    var processedUrls: nat

    constructor(items: seq<QueueItem>)
      ensures this.items == items
    {
      this.items := items;
      startDisabled := false;
      pauseDisabled := true;
      pauseLabel := "Pause";
      stopDisabled := true;
      totalUrls := 0;
      processedUrls := 0;
    }

    /** `setScrapingState(isRunning, isPaused)`. */
    method SetScrapingState(isRunning: bool, isPaused: bool)
      modifies this
      ensures startDisabled <==> isRunning
      ensures pauseDisabled <==> !isRunning
      ensures stopDisabled <==> !isRunning
      ensures pauseLabel == (if isPaused then "Resume" else "Pause")
      ensures items == old(items) && totalUrls == old(totalUrls) && processedUrls == old(processedUrls)
    {
      startDisabled := isRunning;
      pauseDisabled := !isRunning;
      pauseLabel := if isPaused then "Resume" else "Pause";
      stopDisabled := !isRunning;
    }

    /** `updateUrlStats`: the item count and the count of settled items. */
    method UpdateUrlStats()
      modifies this
      ensures totalUrls == |items| && processedUrls == Settled(items)
      ensures items == old(items)
      ensures startDisabled == old(startDisabled) && pauseDisabled == old(pauseDisabled)
      ensures pauseLabel == old(pauseLabel) && stopDisabled == old(stopDisabled)
    {
      var its := items;
      var n := 0;
      for k := 0 to |its|
        modifies {}
        invariant n == Settled(its[..k])
      {
        SettledSnoc(its[..k + 1]);
        assert its[..k + 1][..k] == its[..k];
        if its[k].status == "completed" || its[k].status == "error" {
          n := n + 1;
        }
      }
      assert its[..|its|] == its;
      totalUrls := |its|;
      processedUrls := n;
    }

    /** `updateUrlStatus(url, status)`: every item whose URL is `url` takes the
        status; the counters are then refreshed. */
    method UpdateUrlStatus(url: string, status: string)
      modifies this
      ensures items == Restatus(old(items), url, status)
      ensures totalUrls == |items| && processedUrls == Settled(items)
      ensures startDisabled == old(startDisabled) && pauseDisabled == old(pauseDisabled)
      ensures pauseLabel == old(pauseLabel) && stopDisabled == old(stopDisabled)
    {
      for k := 0 to |items|
        invariant |items| == |old(items)|
        invariant forall j :: 0 <= j < k ==> items[j] == Restatus(old(items), url, status)[j]
        invariant forall j :: k <= j < |items| ==> items[j] == old(items)[j]
        invariant startDisabled == old(startDisabled) && pauseDisabled == old(pauseDisabled)
        invariant pauseLabel == old(pauseLabel) && stopDisabled == old(stopDisabled)
      {
        if items[k].url == url {
          items := items[k := items[k].(status := status)];
        }
      }
      UpdateUrlStats();
    }

    /** `getQueuedUrls`. */
    function GetQueuedUrls(): seq<string>
      reads this
    {
      NonEmptyUrls(items)
    }
  }

  /** Counting settled items one item at a time, from the end. */
  lemma {:induction false} SettledSnoc(items: seq<QueueItem>)
    requires items != []
    ensures Settled(items) == Settled(items[..|items| - 1])
      + (if items[|items| - 1].status == "completed" || items[|items| - 1].status == "error" then 1 else 0)
  {
    if |items| > 1 {
      SettledSnoc(items[1..]);
      assert items[1..][..|items| - 2] == items[..|items| - 1][1..];
    }
  }
}
